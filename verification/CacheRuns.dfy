/** Whole runs of the TTL cache: any number of callers and the reaper interleave the
    critical sections of `cache/memcachettl/memCacheTTL.go` under a clock that never
    goes back.  The reference is a plain map from keys to values with their expiry,
    which only stored `Set`s and `Delete`s change. */
module CacheRuns {
  import opened Prelude
  import opened ExpireHeaps
  import opened TtlCache

  /** One critical section.  `call` names the `Get` call a section belongs to. */
  datatype Event<V> =
    | SetSection(key: string, value: V, ttl: int, t1: Time, t2: Time)
    | GetReadSection(call: nat, key: string, now: Time)
    | GetWriteSection(call: nat, now: Time)
    | DeleteSection(key: string)
    | ExpireSection(now: Time)  // CheckTTL, or a tick of the reaper
    | LimitSection(n: int)

  datatype Reply<V> = Nothing | Stored(ok: bool) | Found(result: Option<V>)

  /** `stale` holds the `Get` calls between their two sections. */
  datatype System<V> = System(cache: CacheState<V>, stale: map<nat, string>, clock: Time)

  function Start<V>(limit: int, clock: Time): System<V> {
    System(CacheState(map[], {}, 0, limit), map[], clock)
  }

  predicate Enabled<V>(s: System<V>, e: Event<V>) {
    match e
    case SetSection(_, _, _, t1, t2) => s.clock <= t1 <= t2
    case GetReadSection(call, _, now) => s.clock <= now && call !in s.stale
    case GetWriteSection(call, now) => s.clock <= now && call in s.stale
    case DeleteSection(_) => true
    case ExpireSection(now) => s.clock <= now
    case LimitSection(_) => true
  }

  function Next<V>(s: System<V>, e: Event<V>): (System<V>, Reply<V>)
    requires Enabled(s, e)
  {
    match e
    case SetSection(key, value, ttl, t1, t2) =>
      var (c, ok) := SetStep(s.cache, key, value, ttl, t1, t2);
      (System(c, s.stale, t2), Stored(ok))
    case GetReadSection(call, key, now) =>
      (match GetFirst(s.cache, key, now)
       case Missing => (s.(clock := now), Found(None))
       case Hit(v) => (s.(clock := now), Found(Some(v)))
       case Stale => (s.(stale := s.stale[call := key], clock := now), Nothing))
    case GetWriteSection(call, now) =>
      var (c, r) := GetSecond(s.cache, s.stale[call], now);
      (System(c, s.stale - {call}, now), Found(r))
    case DeleteSection(key) => (s.(cache := DeleteStep(s.cache, key)), Nothing)
    case ExpireSection(now) => (System(Purge(s.cache, now), s.stale, now), Nothing)
    case LimitSection(n) => (s.(cache := s.cache.(maxEntries := n)), Nothing)
  }

  /** `states` is the sequence of systems the events go through, from the initial one. */
  ghost predicate IsRun<V>(limit: int, es: seq<Event<V>>, states: seq<System<V>>) {
    && |states| == |es| + 1
    && states[0] == Start(limit, states[0].clock)
    && forall i :: 0 <= i < |es| ==> Enabled(states[i], es[i]) && states[i + 1] == Next(states[i], es[i]).0
  }

  function ReplyAt<V>(es: seq<Event<V>>, states: seq<System<V>>, i: nat): Reply<V>
    requires i < |es| && i < |states| && Enabled(states[i], es[i])
  {
    Next(states[i], es[i]).1
  }

  // ----- the reference -----

  datatype Plain<V> = Plain(value: V, expiry: Time)

  /** The plain map's own step. */
  function PlainNext<V>(m: map<string, Plain<V>>, e: Event<V>, r: Reply<V>): map<string, Plain<V>> {
    match e
    case SetSection(key, value, ttl, _, t2) => if r == Stored(true) then m[key := Plain(value, t2 + ttl)] else m
    case DeleteSection(key) => m - {key}
    case _ => m
  }

  /** The plain map after the first `n` events: the last stored and not deleted `Set` of each key. */
  ghost function PlainMap<V>(es: seq<Event<V>>, states: seq<System<V>>, n: nat): map<string, Plain<V>>
    requires n <= |es| && |states| == |es| + 1
    requires forall i :: 0 <= i < |es| ==> Enabled(states[i], es[i])
  {
    if n == 0 then map[]
    else PlainNext(PlainMap(es, states, n - 1), es[n - 1], ReplyAt(es, states, n - 1))
  }

  /** The keys whose last stored `Set` expires after `t`. */
  ghost function LiveKeys<V>(m: map<string, Plain<V>>, t: Time): set<string> {
    set k | k in m && m[k].expiry > t
  }

  // ----- refinement -----

  /** The cache holds a part of the plain map, and what it lacks expired by now. */
  ghost predicate Refines<V>(s: System<V>, m: map<string, Plain<V>>) {
    && Indexed(s.cache)
    && (forall k :: k in s.cache.items ==> k in m && m[k] == Plain(s.cache.items[k].value, s.cache.items[k].expiration))
    && (forall k :: k in m && k !in s.cache.items ==> m[k].expiry <= s.clock)
  }

  lemma PurgeRefines<V>(s: System<V>, m: map<string, Plain<V>>, t: Time)
    requires Refines(s, m) && s.clock <= t
    ensures Refines(System(Purge(s.cache, t), s.stale, t), m)
  {
    var p := Purge(s.cache, t);
    forall k | k in p.items ensures EntryOf(k, p.items[k]) in p.index {
      assert EntryOf(k, s.cache.items[k]) in s.cache.index;
    }
  }

  lemma StoreRefines<V>(s: System<V>, m: map<string, Plain<V>>, key: string, value: V, expiry: Time, t: Time)
    requires Refines(s, m) && s.clock <= t
    ensures Refines(System(Store(s.cache, key, value, expiry), s.stale, t), m[key := Plain(value, expiry)])
  {
    StoreIndexed(s.cache, key, value, expiry);
  }

  /** The memory in which `Set` takes its decision: expired items are dropped first when the limit is hit. */
  function BeforeStore<V>(s: System<V>, e: Event<V>): System<V>
    requires e.SetSection?
  {
    if s.cache.maxEntries > 0 && e.key !in s.cache.items && |s.cache.items| >= s.cache.maxEntries then
      System(Purge(s.cache, e.t1), s.stale, e.t1)
    else
      s.(clock := e.t1)
  }

  /** `Set` either gives up after that, or stores in that memory. */
  ghost predicate DecidedFrom<V>(p: System<V>, e: Event<V>, s': System<V>, r: Reply<V>)
    requires e.SetSection?
  {
    || (r == Stored(false) && s' == p.(clock := e.t2))
    || (r == Stored(true) && s' == System(Store(p.cache, e.key, e.value, e.t2 + e.ttl), p.stale, e.t2))
  }

  lemma SetAfterDecision<V>(s: System<V>, e: Event<V>)
    requires e.SetSection? && Enabled(s, e)
    ensures DecidedFrom(BeforeStore(s, e), e, Next(s, e).0, Next(s, e).1)
  {
  }

  lemma DecisionRefines<V>(p: System<V>, e: Event<V>, m: map<string, Plain<V>>, s': System<V>, r: Reply<V>)
    requires e.SetSection? && p.clock <= e.t2 && Refines(p, m)
    requires DecidedFrom(p, e, s', r)
    ensures Refines(s', PlainNext(m, e, r))
  {
    if r == Stored(true) {
      StoreRefines(p, m, e.key, e.value, e.t2 + e.ttl, e.t2);
    }
  }

  lemma SetRefines<V>(s: System<V>, e: Event<V>, m: map<string, Plain<V>>)
    requires e.SetSection? && Enabled(s, e) && Refines(s, m)
    ensures var (s', r) := Next(s, e); Refines(s', PlainNext(m, e, r))
  {
    PurgeRefines(s, m, e.t1);
    SetAfterDecision(s, e);
    DecisionRefines(BeforeStore(s, e), e, m, Next(s, e).0, Next(s, e).1);
  }

  lemma GetWriteRefines<V>(s: System<V>, e: Event<V>, m: map<string, Plain<V>>)
    requires e.GetWriteSection? && Enabled(s, e) && Refines(s, m)
    ensures Refines(Next(s, e).0, m)
  {
  }

  lemma DeleteRefines<V>(s: System<V>, e: Event<V>, m: map<string, Plain<V>>)
    requires e.DeleteSection? && Refines(s, m)
    ensures Refines(Next(s, e).0, m - {e.key})
  {
  }

  lemma SectionRefines<V>(s: System<V>, e: Event<V>, m: map<string, Plain<V>>)
    requires Enabled(s, e) && Refines(s, m)
    ensures var (s', r) := Next(s, e); Refines(s', PlainNext(m, e, r))
  {
    match e
    case SetSection(_, _, _, _, _) => SetRefines(s, e, m);
    case ExpireSection(now) => PurgeRefines(s, m, now);
    case GetWriteSection(_, _) => GetWriteRefines(s, e, m);
    case DeleteSection(_) => DeleteRefines(s, e, m);
    case _ =>
  }

  /** Along every run the cache refines the plain map. */
  lemma {:induction false} CacheRefinesPlainMap<V>(limit: int, es: seq<Event<V>>, states: seq<System<V>>, n: nat)
    requires IsRun(limit, es, states) && n <= |es|
    ensures Refines(states[n], PlainMap(es, states, n))
  {
    if n > 0 {
      CacheRefinesPlainMap(limit, es, states, n - 1);
      SectionRefines(states[n - 1], es[n - 1], PlainMap(es, states, n - 1));
      assert states[n] == Next(states[n - 1], es[n - 1]).0;
    }
  }

  /** What a `Get` of `k` may answer at time `t`.  At the very instant of expiry both answers are allowed. */
  ghost predicate RightAnswer<V>(m: map<string, Plain<V>>, k: string, t: Time, r: Option<V>) {
    && (k !in m ==> r == None)
    && (k in m && t < m[k].expiry ==> r == Some(m[k].value))
    && (k in m && t > m[k].expiry ==> r == None)
    && (r.Some? ==> k in m && r.value == m[k].value)
  }

  /** In every interleaving a `Get` answers from the plain map, at the section that answers. */
  lemma GetAnswersFromPlainMap<V>(limit: int, es: seq<Event<V>>, states: seq<System<V>>, i: nat)
    requires IsRun(limit, es, states) && i < |es| && ReplyAt(es, states, i).Found?
    ensures es[i].GetReadSection? || es[i].GetWriteSection?
    ensures RightAnswer(PlainMap(es, states, i), KeyOf(states[i], es[i]), es[i].now, ReplyAt(es, states, i).result)
  {
    CacheRefinesPlainMap(limit, es, states, i);
  }

  /** The key that a section of `Get` looks up. */
  function KeyOf<V>(s: System<V>, e: Event<V>): string
    requires (e.GetReadSection? || e.GetWriteSection?) && Enabled(s, e)
  {
    if e.GetReadSection? then e.key else s.stale[e.call]
  }

  /** Section `j` is the read section of `call`, of `key`, and the call has had no further section before `n`. */
  ghost predicate OpenedBy<V>(es: seq<Event<V>>, states: seq<System<V>>, j: nat, n: nat, call: nat, key: string)
    requires n <= |es| && |states| == |es| + 1 && forall i :: 0 <= i < |es| ==> Enabled(states[i], es[i])
  {
    && j < n && es[j].GetReadSection? && es[j].call == call && es[j].key == key && ReplyAt(es, states, j) == Nothing
    && forall m :: j < m < n ==> !(es[m].GetReadSection? && es[m].call == call)
                                 && !(es[m].GetWriteSection? && es[m].call == call)
  }

  lemma StaleStep<V>(s: System<V>, e: Event<V>, call: nat)
    requires Enabled(s, e) && call in Next(s, e).0.stale
    ensures if e.GetReadSection? && e.call == call then
              Next(s, e).1 == Nothing && Next(s, e).0.stale[call] == e.key
            else
              call in s.stale && s.stale[call] == Next(s, e).0.stale[call] && !(e.GetWriteSection? && e.call == call)
  {
  }

  /** The write section of a `Get` looks up the key of its own read section. */
  lemma {:induction false} WriteSectionHasReadSectionsKey<V>(limit: int, es: seq<Event<V>>, states: seq<System<V>>,
                                                             n: nat, call: nat) returns (j: nat)
    requires IsRun(limit, es, states) && n <= |es| && call in states[n].stale
    ensures OpenedBy(es, states, j, n, call, states[n].stale[call])
  {
    var m := n - 1;
    StaleStep(states[m], es[m], call);
    if es[m].GetReadSection? && es[m].call == call {
      j := m;
    } else {
      j := WriteSectionHasReadSectionsKey(limit, es, states, m, call);
    }
  }

  /** A `Get` needs its write section exactly if the read section finds its key stored and strictly expired. */
  lemma ReadSectionAnswersUnlessExpired<V>(limit: int, es: seq<Event<V>>, states: seq<System<V>>, i: nat)
    requires IsRun(limit, es, states) && i < |es| && es[i].GetReadSection?
    ensures var m := PlainMap(es, states, i);
      ReplyAt(es, states, i) == Nothing <==>
        es[i].key in states[i].cache.items && es[i].key in m && es[i].now > m[es[i].key].expiry
    ensures es[i].call in states[i + 1].stale <==> ReplyAt(es, states, i) == Nothing
  {
    CacheRefinesPlainMap(limit, es, states, i);
  }

  /** A `Get` that found nothing in its write section leaves the key out of the cache; all else stays. */
  lemma WriteSectionDropsExpired<V>(limit: int, es: seq<Event<V>>, states: seq<System<V>>, i: nat)
    requires IsRun(limit, es, states) && i < |es| && es[i].GetWriteSection?
    ensures var c, d, key := states[i].cache, states[i + 1].cache, states[i].stale[es[i].call];
      d.items == if ReplyAt(es, states, i) == Found(None) then c.items - {key} else c.items
  {
    assert states[i + 1] == Next(states[i], es[i]).0;
  }

  /** An expiry pass at `t` or later has run before event `n`. */
  ghost predicate PassedAt<V>(es: seq<Event<V>>, states: seq<System<V>>, n: nat, t: Time)
    requires n <= |es| && |states| == |es| + 1
  {
    exists j :: 0 <= j < n && PassAtLeast(states[j], es[j], t)
  }

  predicate PassAtLeast<V>(s: System<V>, e: Event<V>, t: Time) {
    PassOf(s, e).Some? && PassOf(s, e).value >= t
  }

  lemma MissingAfterStep<V>(s: System<V>, e: Event<V>, k: string)
    requires Enabled(s, e) && k in s.cache.items && k !in Next(s, e).0.cache.items
    ensures || e == DeleteSection(k)
            || PassAtLeast(s, e, s.cache.items[k].expiration)
            || s.cache.items[k].expiration < Next(s, e).0.clock
  {
  }

  /** What the plain map holds and the cache has lost was due at an expiry pass, or has strictly expired. */
  lemma {:induction false} LostOnlyWhenDue<V>(limit: int, es: seq<Event<V>>, states: seq<System<V>>, n: nat, k: string)
    requires IsRun(limit, es, states) && n <= |es|
    requires k in PlainMap(es, states, n) && k !in states[n].cache.items
    ensures var t := PlainMap(es, states, n)[k].expiry; t < states[n].clock || PassedAt(es, states, n, t)
  {
    var m := n - 1;
    var t := PlainMap(es, states, n)[k].expiry;
    CacheRefinesPlainMap(limit, es, states, m);
    KeptInPlainMap(es, states, m, k);
    if k in states[m].cache.items {
      MissingAfterStep(states[m], es[m], k);
    } else {
      LostOnlyWhenDue(limit, es, states, m, k);
      ClockStep(states[m], es[m]);
      if PassedAt(es, states, m, t) {
        var j :| 0 <= j < m && PassAtLeast(states[j], es[j], t);
        assert PassAtLeast(states[j], es[j], t);
      }
    }
  }

  lemma ClockStep<V>(s: System<V>, e: Event<V>)
    requires Enabled(s, e)
    ensures s.clock <= Next(s, e).0.clock
  {
  }

  /** A key missing from the cache after a section was not stored by it. */
  lemma KeptInPlainMap<V>(es: seq<Event<V>>, states: seq<System<V>>, m: nat, k: string)
    requires m < |es| && |states| == |es| + 1 && forall i :: 0 <= i < |es| ==> Enabled(states[i], es[i])
    requires states[m + 1] == Next(states[m], es[m]).0
    requires k in PlainMap(es, states, m + 1) && k !in states[m + 1].cache.items
    ensures k in PlainMap(es, states, m) && PlainMap(es, states, m)[k] == PlainMap(es, states, m + 1)[k]
    ensures es[m] != DeleteSection(k)
  {
  }

  /** At the very instant of expiry `Get` still answers the value, unless an expiry pass has run at that instant. */
  lemma GetAtExpiryInstant<V>(limit: int, es: seq<Event<V>>, states: seq<System<V>>, i: nat)
    requires IsRun(limit, es, states) && i < |es| && ReplyAt(es, states, i).Found?
    requires var (m, k) := (PlainMap(es, states, i), KeyOf(states[i], es[i]));
      k in m && es[i].now == m[k].expiry && !PassedAt(es, states, i, es[i].now)
    ensures var (m, k) := (PlainMap(es, states, i), KeyOf(states[i], es[i]));
      ReplyAt(es, states, i).result == Some(m[k].value)
  {
    CacheRefinesPlainMap(limit, es, states, i);
    var k := KeyOf(states[i], es[i]);
    if k !in states[i].cache.items {
      LostOnlyWhenDue(limit, es, states, i, k);
    }
  }

  // ----- the size limit -----

  ghost predicate LimitFixed<V>(es: seq<Event<V>>) {
    forall i :: 0 <= i < |es| ==> !es[i].LimitSection?
  }

  lemma SubmapSize<V>(a: map<string, V>, b: map<string, V>)
    requires a.Keys <= b.Keys
    ensures |a| <= |b|
  {
    SubsetSize(a.Keys, b.Keys);
  }

  lemma SubsetSize<T>(a: set<T>, b: set<T>)
    requires a <= b
    ensures |a| <= |b|
    ensures |a| == |b| ==> a == b
  {
    assert b == a + (b - a);
    assert |b| == |a| + |b - a|;
  }

  /** One section keeps the number of items within the limit. */
  lemma SectionKeepsLimit<V>(s: System<V>, e: Event<V>)
    requires Enabled(s, e) && !e.LimitSection?
    requires s.cache.maxEntries > 0 && |s.cache.items| <= s.cache.maxEntries
    ensures Next(s, e).0.cache.maxEntries == s.cache.maxEntries
    ensures |Next(s, e).0.cache.items| <= s.cache.maxEntries
  {
    var s' := Next(s, e).0;
    match e
    case SetSection(key, value, ttl, t1, t2) =>
      var p := Purge(s.cache, t1);
      SubmapSize(p.items, s.cache.items);
      var item := CacheItem(value, t2 + ttl, s.cache.nextSeq + 1);
      assert key in s.cache.items ==> s.cache.items[key := item].Keys == s.cache.items.Keys;
    case _ =>
      SubmapSize(s'.cache.items, s.cache.items);
  }

  /** With a fixed positive limit the cache never holds more items than the limit. */
  lemma {:induction false} SizeNeverExceedsLimit<V>(limit: int, es: seq<Event<V>>, states: seq<System<V>>, n: nat)
    requires IsRun(limit, es, states) && n <= |es| && limit > 0 && LimitFixed(es)
    ensures states[n].cache.maxEntries == limit && |states[n].cache.items| <= limit
  {
    if n > 0 {
      SizeNeverExceedsLimit(limit, es, states, n - 1);
      SectionKeepsLimit(states[n - 1], es[n - 1]);
    }
  }

  /** The items left by an expiry pass are exactly the live keys of the plain map. */
  lemma PurgedKeysAreLive<V>(s: System<V>, m: map<string, Plain<V>>, t: Time)
    requires Refines(s, m) && s.clock <= t
    ensures Unexpired(s.cache.items, t).Keys == LiveKeys(m, t)
  {
  }

  /** A `Set` is refused exactly when its key is not live and the limit is filled by live keys,
      all of them expiring after the clock reading of the limit check. */
  lemma RefusedIffFullOfLiveKeys<V>(limit: int, es: seq<Event<V>>, states: seq<System<V>>, i: nat)
    requires IsRun(limit, es, states) && limit > 0 && LimitFixed(es)
    requires i < |es| && es[i].SetSection?
    ensures var live := LiveKeys(PlainMap(es, states, i), es[i].t1);
      ReplyAt(es, states, i) == Stored(false) <==> es[i].key !in live && |live| == limit
    ensures es[i].key in states[i].cache.items ==> ReplyAt(es, states, i) == Stored(true)
  {
    CacheRefinesPlainMap(limit, es, states, i);
    SizeNeverExceedsLimit(limit, es, states, i);
    var s, t1 := states[i], es[i].t1;
    var live := LiveKeys(PlainMap(es, states, i), t1);
    PurgedKeysAreLive(s, PlainMap(es, states, i), t1);
    assert |Purge(s.cache, t1).items| == |live|;
    SubsetSize(live, s.cache.items.Keys);
  }

  /** The limit that holds before event `n`: the last one set, or the initial one. */
  function LimitAt<V>(limit: int, es: seq<Event<V>>, n: nat): int
    requires n <= |es|
  {
    if n == 0 then limit else if es[n - 1].LimitSection? then es[n - 1].n else LimitAt(limit, es, n - 1)
  }

  lemma {:induction false} LimitIsLastSet<V>(limit: int, es: seq<Event<V>>, states: seq<System<V>>, n: nat)
    requires IsRun(limit, es, states) && n <= |es|
    ensures states[n].cache.maxEntries == LimitAt(limit, es, n)
  {
    if n > 0 {
      LimitIsLastSet(limit, es, states, n - 1);
    }
  }

  /** The live keys of the plain map are all in the cache. */
  lemma LiveKeysAreCached<V>(s: System<V>, m: map<string, Plain<V>>, t: Time)
    requires Refines(s, m) && s.clock <= t
    ensures |LiveKeys(m, t)| <= |s.cache.items|
  {
    SubsetSize(LiveKeys(m, t), s.cache.items.Keys);
  }

  /** Whatever becomes of the limit during a run, a `Set` is refused exactly when a limit is in force, the cache does
      not hold the key, and at least as many keys as the limit allows expire after the time checked. */
  lemma RefusedIffLimitReached<V>(limit: int, es: seq<Event<V>>, states: seq<System<V>>, i: nat)
    requires IsRun(limit, es, states) && i < |es| && es[i].SetSection?
    ensures ReplyAt(es, states, i).Stored?
    ensures var l, live := LimitAt(limit, es, i), LiveKeys(PlainMap(es, states, i), es[i].t1);
      !ReplyAt(es, states, i).ok <==> l > 0 && es[i].key !in states[i].cache.items && |live| >= l
  {
    var m := PlainMap(es, states, i);
    CacheRefinesPlainMap(limit, es, states, i);
    LimitIsLastSet(limit, es, states, i);
    PurgedKeysAreLive(states[i], m, es[i].t1);
    LiveKeysAreCached(states[i], m, es[i].t1);
    assert |Purge(states[i].cache, es[i].t1).items| == |LiveKeys(m, es[i].t1)|;
  }

  // ----- the index -----

  /** In every reachable state the index is sound, whatever the limit does. */
  lemma IndexSoundAlways<V>(limit: int, es: seq<Event<V>>, states: seq<System<V>>, n: nat)
    requires IsRun(limit, es, states) && n <= |es|
    ensures var c := states[n].cache;
      && (forall k :: k in c.items ==> EntryOf(k, c.items[k]) in c.index)
      && (forall e, f :: e in c.index && f in c.index && e.stamp == f.stamp ==> e == f)
      && (forall e :: e in c.index ==> e.stamp <= c.nextSeq)
      && (forall e :: e in c.index && e.key in c.items && e.stamp == c.items[e.key].stamp ==>
            e.expiry == c.items[e.key].expiration)
  {
    CacheRefinesPlainMap(limit, es, states, n);
    var c := states[n].cache;
    forall e | e in c.index && e.key in c.items && e.stamp == c.items[e.key].stamp
      ensures e.expiry == c.items[e.key].expiration
    {
      assert EntryOf(e.key, c.items[e.key]) in c.index;
    }
  }

  /** In every reachable state an expiry pass leaves exactly the keys that are live in the plain map, with the
      plain map's values, and index entries that expire later. */
  lemma ExpiryPassLeavesLiveItems<V>(limit: int, es: seq<Event<V>>, states: seq<System<V>>, n: nat, now: Time)
    requires IsRun(limit, es, states) && n <= |es| && states[n].clock <= now
    ensures var m, p := PlainMap(es, states, n), Purge(states[n].cache, now);
      && p.items.Keys == LiveKeys(m, now)
      && (forall k :: k in p.items ==> m[k] == Plain(p.items[k].value, p.items[k].expiration))
      && (forall k :: k in p.items ==> EntryOf(k, p.items[k]) in p.index)
      && (forall e :: e in p.index ==> e.expiry > now)
  {
    CacheRefinesPlainMap(limit, es, states, n);
    PurgedKeysAreLive(states[n], PlainMap(es, states, n), now);
    PurgeRefines(states[n], PlainMap(es, states, n), now);
  }

  // ----- how large the index gets -----

  ghost predicate StoredAt<V>(es: seq<Event<V>>, states: seq<System<V>>, j: nat)
    requires j < |es| && j < |states| && Enabled(states[j], es[j])
  {
    ReplyAt(es, states, j) == Stored(true)
  }

  /** The index entry that the `Set` of event `j` writes. */
  function Written<V>(es: seq<Event<V>>, states: seq<System<V>>, j: nat): ExpireItem
    requires j < |es| && j < |states| && es[j].SetSection?
  {
    ExpireItem(es[j].key, es[j].t2 + es[j].ttl, states[j].cache.nextSeq + 1)
  }

  /** The clock of the expiry pass that section `e` runs, if it runs one. */
  function PassOf<V>(s: System<V>, e: Event<V>): Option<Time> {
    match e
    case ExpireSection(now) => Some(now)
    case SetSection(key, _, _, t1, _) =>
      var full := s.cache.maxEntries > 0 && key !in s.cache.items && |s.cache.items| >= s.cache.maxEntries;
      if full then Some(t1) else None
    case _ => None
  }

  predicate SurvivesPass<V>(s: System<V>, e: Event<V>, x: ExpireItem) {
    PassOf(s, e).Some? ==> PassOf(s, e).value < x.expiry
  }

  /** The `Set` of event `j` was stored, and its entry was not due at any later expiry pass before event `n`. */
  ghost predicate StillIndexed<V>(es: seq<Event<V>>, states: seq<System<V>>, j: nat, n: nat)
    requires n <= |es| && |states| == |es| + 1 && forall i :: 0 <= i < |es| ==> Enabled(states[i], es[i])
  {
    && j < n && es[j].SetSection? && StoredAt(es, states, j)
    && forall k :: j < k < n ==> SurvivesPass(states[k], es[k], Written(es, states, j))
  }

  /** What a section does to the index: its expiry pass drops the due entries, then a stored `Set` adds its own. */
  lemma StepOnIndex<V>(s: System<V>, e: Event<V>, x: ExpireItem)
    requires Enabled(s, e)
    ensures x in Next(s, e).0.cache.index <==>
              || (x in s.cache.index && SurvivesPass(s, e, x))
              || (Next(s, e).1 == Stored(true) && x == ExpireItem(e.key, e.t2 + e.ttl, s.cache.nextSeq + 1))
  {
  }

  lemma StillIndexedStep<V>(es: seq<Event<V>>, states: seq<System<V>>, j: nat, m: nat)
    requires j <= m < |es| && |states| == |es| + 1 && forall i :: 0 <= i < |es| ==> Enabled(states[i], es[i])
    ensures StillIndexed(es, states, j, m + 1) <==>
              if j == m then es[m].SetSection? && StoredAt(es, states, m)
              else StillIndexed(es, states, j, m) && SurvivesPass(states[m], es[m], Written(es, states, j))
  {
  }

  ghost predicate HasWriter<V>(es: seq<Event<V>>, states: seq<System<V>>, n: nat, x: ExpireItem)
    requires n <= |es| && |states| == |es| + 1 && forall i :: 0 <= i < |es| ==> Enabled(states[i], es[i])
  {
    exists j :: StillIndexed(es, states, j, n) && Written(es, states, j) == x
  }

  lemma HasWriterStep<V>(es: seq<Event<V>>, states: seq<System<V>>, m: nat, x: ExpireItem)
    requires m < |es| && |states| == |es| + 1 && forall i :: 0 <= i < |es| ==> Enabled(states[i], es[i])
    ensures HasWriter(es, states, m + 1, x) <==>
              || (HasWriter(es, states, m, x) && SurvivesPass(states[m], es[m], x))
              || (ReplyAt(es, states, m) == Stored(true) && x == Written(es, states, m))
  {
    if HasWriter(es, states, m + 1, x) {
      var j :| StillIndexed(es, states, j, m + 1) && Written(es, states, j) == x;
      StillIndexedStep(es, states, j, m);
    }
    if HasWriter(es, states, m, x) && SurvivesPass(states[m], es[m], x) {
      var j :| StillIndexed(es, states, j, m) && Written(es, states, j) == x;
      StillIndexedStep(es, states, j, m);
    }
    if ReplyAt(es, states, m) == Stored(true) {
      StillIndexedStep(es, states, m, m);
    }
  }

  lemma IndexStep<V>(es: seq<Event<V>>, states: seq<System<V>>, m: nat, x: ExpireItem)
    requires m < |es| && |states| == |es| + 1 && forall i :: 0 <= i < |es| ==> Enabled(states[i], es[i])
    requires states[m + 1] == Next(states[m], es[m]).0
    requires x in states[m].cache.index <==> HasWriter(es, states, m, x)
    ensures x in states[m + 1].cache.index <==> HasWriter(es, states, m + 1, x)
  {
    StepOnIndex(states[m], es[m], x);
    HasWriterStep(es, states, m, x);
  }

  /** At any moment the index consists of one entry for each stored `Set` that was not yet due at the last expiry
      pass after it, whether or not the key was overwritten or deleted since. */
  lemma {:induction false} IndexHoldsWrites<V>(limit: int, es: seq<Event<V>>, states: seq<System<V>>, n: nat,
                                               x: ExpireItem)
    requires IsRun(limit, es, states) && n <= |es|
    ensures x in states[n].cache.index <==> HasWriter(es, states, n, x)
  {
    if n > 0 {
      IndexHoldsWrites(limit, es, states, n - 1, x);
      IndexStep(es, states, n - 1, x);
    }
  }

  /** So it has no more entries than `Set`s were stored ... */
  lemma {:induction false} IndexIsBoundedByWrites<V>(limit: int, es: seq<Event<V>>, states: seq<System<V>>, n: nat)
    requires IsRun(limit, es, states) && n <= |es|
    ensures |states[n].cache.index| <= states[n].cache.nextSeq
  {
    if n > 0 {
      IndexIsBoundedByWrites(limit, es, states, n - 1);
      SectionGrowsIndex(states[n - 1], es[n - 1]);
    }
  }

  lemma SectionCountsWrites<V>(s: System<V>, e: Event<V>)
    requires Enabled(s, e)
    ensures Next(s, e).0.cache.nextSeq == s.cache.nextSeq + if Next(s, e).1 == Stored(true) then 1 else 0
  {
  }

  lemma SectionGrowsIndex<V>(s: System<V>, e: Event<V>)
    requires Enabled(s, e)
    ensures |Next(s, e).0.cache.index| - |s.cache.index| <= Next(s, e).0.cache.nextSeq - s.cache.nextSeq
  {
    var t := Next(s, e).0.cache.index;
    SectionCountsWrites(s, e);
    var more := if Next(s, e).1 == Stored(true) then {ExpireItem(e.key, e.t2 + e.ttl, s.cache.nextSeq + 1)} else {};
    forall x | x in t ensures x in s.cache.index + more {
      StepOnIndex(s, e, x);
    }
    SubsetSize(t, s.cache.index + more);
  }

  function Overwrite<V>(key: string, value: V): Event<V> {
    SetSection(key, value, 1, 0, 0)
  }

  /** The cache after `n` such `Set`s. */
  function Overwritten<V>(key: string, value: V, n: nat): System<V> {
    var items := if n == 0 then map[] else map[key := CacheItem(value, 1, n)];
    System(CacheState(items, Entries(key, n), n, 1), map[], 0)
  }

  function Entries(key: string, n: nat): (xs: set<ExpireItem>)
    ensures |xs| == n && forall x :: x in xs ==> x.stamp <= n
  {
    if n == 0 then {} else Entries(key, n - 1) + {ExpireItem(key, 1, n)}
  }

  /** ... and no limit keeps it smaller: overwriting one key fills it under a limit of 1. */
  lemma LimitDoesNotBoundIndex<V>(key: string, value: V, n: nat) returns (es: seq<Event<V>>, states: seq<System<V>>)
    requires n > 0
    ensures IsRun(1, es, states) && |es| == n && forall i :: 0 <= i < n ==> es[i] == Overwrite(key, value)
    ensures |states[n].cache.items| == 1 && |states[n].cache.index| == n
  {
    es := seq(n, _ => Overwrite(key, value));
    states := seq(n + 1, i requires i >= 0 => Overwritten(key, value, i));
    forall i | 0 <= i < n ensures Next(states[i], es[i]).0 == states[i + 1] {
      OverwriteStep(key, value, i);
    }
  }

  lemma OverwriteStep<V>(key: string, value: V, i: nat)
    ensures Enabled(Overwritten(key, value, i), Overwrite(key, value))
    ensures Next(Overwritten(key, value, i), Overwrite(key, value)).0 == Overwritten(key, value, i + 1)
  {
    OverwriteStores(Overwritten(key, value, i).cache, key, value);
    OverwrittenNext(key, value, i);
  }

  lemma OverwriteStores<V>(s: CacheState<V>, key: string, value: V)
    requires key in s.items || (s.items == map[] && s.maxEntries == 1)
    ensures SetStep(s, key, value, 1, 0, 0) == (Store(s, key, value, 1), true)
  {
  }

  lemma OverwrittenNext<V>(key: string, value: V, i: nat)
    ensures Store(Overwritten(key, value, i).cache, key, value, 1) == Overwritten(key, value, i + 1).cache
  {
    var s, t := Overwritten(key, value, i).cache, Overwritten(key, value, i + 1).cache;
    assert s.items[key := CacheItem(value, 1, i + 1)] == t.items;
  }
}
