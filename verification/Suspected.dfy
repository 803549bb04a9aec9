/** The counter of suspicious hits (`web/gin/middleware/fail2ban/suspected.go`). */
module SuspectedTable {
  import opened Prelude

  const EVICT_THRESHOLD := 1024
  const EVICT_SWEEP_INTERVAL := 30_000_000_000

  /** Whether a table of `size` records is swept at clock reading `since`; a table never swept
      before counts as swept infinitely long ago. */
  predicate SweepDue(size: nat, lastSweep: Option<Time>, since: Time) {
    size > EVICT_THRESHOLD && (lastSweep == None || since - lastSweep.value > EVICT_SWEEP_INTERVAL)
  }

  datatype Record = Record(count: int, watchTime: Time)

  datatype Counters = Counters(items: map<string, Record>, lastSweep: Option<Time>)

  function Swept(items: map<string, Record>, now: Time): map<string, Record> {
    map ip | ip in items && !(items[ip].watchTime < now) :: items[ip]
  }

  /** `Incr` at clock reading `now`; `since` is the later reading that decides about the sweep. */
  function IncrStep(s: Counters, watchPeriod: int, ip: string, now: Time, since: Time): (Counters, int) {
    var t := if SweepDue(|s.items|, s.lastSweep, since) then Counters(Swept(s.items, now), Some(now)) else s;
    if ip !in t.items then
      (t.(items := t.items[ip := Record(1, now + watchPeriod)]), 1)
    else if t.items[ip].watchTime < now then
      (t.(items := t.items - {ip}), 0)
    else
      var r := t.items[ip].(count := t.items[ip].count + 1);
      (t.(items := t.items[ip := r]), r.count)
  }

  /** What one hit does, swept or not: other records stay or go, and the address's own record is new,
      or one up inside its window, or dropped with the hit. */
  ghost predicate HitEffect(s: Counters, watchPeriod: int, ip: string, now: Time, t: Counters, c: int) {
    && (forall x :: x in t.items && x != ip ==> x in s.items && t.items[x] == s.items[x])
    && if c == 0 then ip !in t.items
       else
         && ip in t.items && t.items[ip].count == c
         && (t.items[ip] == Record(1, now + watchPeriod)
             || (ip in s.items && t.items[ip] == Record(s.items[ip].count + 1, s.items[ip].watchTime)
                 && now <= s.items[ip].watchTime))
  }

  lemma IncrEffect(s: Counters, watchPeriod: int, ip: string, now: Time, since: Time)
    requires forall x :: x in s.items ==> s.items[x].count >= 1
    ensures var (t, c) := IncrStep(s, watchPeriod, ip, now, since); HitEffect(s, watchPeriod, ip, now, t, c)
  {
  }

  function DelStep(s: Counters, ip: string): Counters {
    s.(items := s.items - {ip})
  }

  /** Records of other addresses go only in a sweep, and then exactly those whose window is over.  A sweep happens at
      most every 30 seconds, and only in a table of more than 1024 records. */
  lemma SweptOnlyWhenLarge(s: Counters, watchPeriod: int, ip: string, now: Time, since: Time, other: string)
    requires other != ip
    ensures var t := IncrStep(s, watchPeriod, ip, now, since).0;
      var due := |s.items| > 1024 && (s.lastSweep.Some? ==> since - s.lastSweep.value > 30_000_000_000);
      && (other in t.items <==> other in s.items && (due ==> now <= s.items[other].watchTime))
      && (other in t.items ==> t.items[other] == s.items[other])
      && t.lastSweep == if due then Some(now) else s.lastSweep
  {
  }

  /** What becomes of the address's own record: inside its window one hit more; once the window is over it goes with
      the hit, unless a sweep has taken it before; and without a record the hit starts a new window. */
  lemma OwnRecord(s: Counters, watchPeriod: int, ip: string, now: Time, since: Time)
    ensures var (t, count) := IncrStep(s, watchPeriod, ip, now, since);
      var due := |s.items| > 1024 && (s.lastSweep.Some? ==> since - s.lastSweep.value > 30_000_000_000);
      if ip in s.items && now <= s.items[ip].watchTime then
        count == s.items[ip].count + 1 && ip in t.items && t.items[ip] == Record(count, s.items[ip].watchTime)
      else if ip in s.items && !due then count == 0 && ip !in t.items
      else count == 1 && ip in t.items && t.items[ip] == Record(1, now + watchPeriod)
  {
  }

  /** A deletion takes the record of one address and leaves everything else, the time of the last sweep included. */
  lemma DeletesOne(s: Counters, ip: string, other: string)
    requires other != ip
    ensures var t := DelStep(s, ip);
      && ip !in t.items && t.lastSweep == s.lastSweep
      && (other in t.items <==> other in s.items) && (other in s.items ==> t.items[other] == s.items[other])
  {
  }

  class Suspected {
    var items: map<string, Record>
    var lastSweep: Option<Time>
    const watchPeriod: int

    function State(): Counters
      reads this
    {
      Counters(items, lastSweep)
    }

    constructor (watchPeriod: int)
      ensures State() == Counters(map[], None) && this.watchPeriod == watchPeriod
    {
      items, lastSweep := map[], None;
      this.watchPeriod := watchPeriod;
    }

    /** Visits the records in any order and deletes those whose window is over. */
    method Sweep(now: Time)
      modifies this`items
      ensures items == Swept(old(items), now)
    {
      var todo := items.Keys;
      while todo != {}
        invariant todo <= items.Keys <= old(items).Keys
        invariant forall ip :: ip in items ==> items[ip] == old(items)[ip]
        invariant forall ip :: ip in old(items) && ip !in todo ==> (ip in items <==> !(old(items)[ip].watchTime < now))
        decreases todo
      {
        var ip :| ip in todo;
        if items[ip].watchTime < now {
          items := items - {ip};
        }
        todo := todo - {ip};
      }
    }

    method Incr(ip: string, now: Time, since: Time) returns (count: int)
      modifies this
      ensures (State(), count) == IncrStep(old(State()), watchPeriod, ip, now, since)
    {
      if SweepDue(|items|, lastSweep, since) {
        Sweep(now);
        lastSweep := Some(now);
      }
      if ip !in items {
        items := items[ip := Record(1, now + watchPeriod)];
        return 1;
      }
      var item := items[ip];
      if item.watchTime < now {
        items := items - {ip};
        return 0;
      }
      item := item.(count := item.count + 1);
      items := items[ip := item];
      return item.count;
    }

    method Del(ip: string)
      modifies this`items
      ensures State() == DelStep(old(State()), ip)
    {
      items := items - {ip};
    }
  }

  // ----- every interleaving of Incr and Del -----

  datatype Event = Incr(ip: string, now: Time, since: Time) | Del(ip: string)

  function Next(s: Counters, watchPeriod: int, e: Event): (Counters, Option<int>) {
    match e
    case Incr(ip, now, since) => var (t, c) := IncrStep(s, watchPeriod, ip, now, since); (t, Some(c))
    case Del(ip) => (DelStep(s, ip), None)
  }

  function Last(es: seq<Event>): Event
    requires es != []
  {
    es[|es| - 1]
  }

  function After(watchPeriod: int, es: seq<Event>): Counters {
    if es == [] then Counters(map[], None)
    else Next(After(watchPeriod, es[..|es| - 1]), watchPeriod, Last(es)).0
  }

  /** The clock readings of successive `Incr` calls never go back. */
  ghost predicate ClockNeverBack(es: seq<Event>) {
    forall i, j :: 0 <= i <= j < |es| && es[i].Incr? && es[j].Incr? ==> es[i].now <= es[j].now
  }

  /** The hits of `ip` read at a time in `[lo, hi]`. */
  function HitsWithin(es: seq<Event>, ip: string, lo: Time, hi: Time): nat {
    Count(IsHitWithin(es, ip, lo, hi), 0, |es|)
  }

  function IsHitWithin(es: seq<Event>, ip: string, lo: Time, hi: Time): nat -> bool {
    (i: nat) => i < |es| && es[i].Incr? && es[i].ip == ip && lo <= es[i].now <= hi
  }

  lemma HitsWithinExtended(es: seq<Event>, e: Event, ip: string, lo: Time, hi: Time)
    ensures HitsWithin(es + [e], ip, lo, hi)
            == HitsWithin(es, ip, lo, hi) + if e.Incr? && e.ip == ip && lo <= e.now <= hi then 1 else 0
  {
    CountAgrees(IsHitWithin(es + [e], ip, lo, hi), IsHitWithin(es, ip, lo, hi), 0, |es|);
  }

  /** A record's window runs from the hit that created it to `watchTime`, or is that single instant if the period
      is negative. */
  ghost predicate Backed(es: seq<Event>, watchPeriod: int, ip: string, r: Record) {
    var lo := r.watchTime - watchPeriod;
    && 1 <= r.count <= HitsWithin(es, ip, lo, lo + Max(watchPeriod, 0))
    && (exists i :: 0 <= i < |es| && es[i].Incr? && lo <= es[i].now)
  }

  lemma BackedSurvives(es: seq<Event>, e: Event, watchPeriod: int, ip: string, r: Record)
    requires Backed(es, watchPeriod, ip, r)
    ensures Backed(es + [e], watchPeriod, ip, r)
  {
    var lo := r.watchTime - watchPeriod;
    HitsWithinExtended(es, e, ip, lo, lo + Max(watchPeriod, 0));
    var i :| 0 <= i < |es| && es[i].Incr? && lo <= es[i].now;
    assert (es + [e])[i] == es[i];
  }

  lemma StepBacked(pre: seq<Event>, e: Event, watchPeriod: int, ip: string, s: Counters, s': Counters, c: int)
    requires ClockNeverBack(pre + [e])
    requires if e.Incr? then HitEffect(s, watchPeriod, e.ip, e.now, s', c) else s' == DelStep(s, e.ip)
    requires ip in s.items ==> Backed(pre, watchPeriod, ip, s.items[ip])
    requires ip in s'.items
    ensures Backed(pre + [e], watchPeriod, ip, s'.items[ip])
  {
    var es := pre + [e];
    assert es[|pre|] == e;
    var from := s'.items[ip].watchTime - watchPeriod;
    HitsWithinExtended(pre, e, ip, from, from + Max(watchPeriod, 0));
    if ip in s.items {
      BackedSurvives(pre, e, watchPeriod, ip, s.items[ip]);
      var lo := s.items[ip].watchTime - watchPeriod;
      var i :| 0 <= i < |pre| && pre[i].Incr? && lo <= pre[i].now;
      assert es[i] == pre[i];
    }
  }

  /** In every interleaving each count rests on that many hits of the same address inside its window. */
  lemma {:induction false} CountsAreBacked(watchPeriod: int, es: seq<Event>)
    requires ClockNeverBack(es)
    ensures forall ip :: ip in After(watchPeriod, es).items ==>
              Backed(es, watchPeriod, ip, After(watchPeriod, es).items[ip])
  {
    if es != [] {
      var n := |es| - 1;
      var pre, e := es[..n], es[n];
      assert es == pre + [e];
      CountsAreBacked(watchPeriod, pre);
      var s := After(watchPeriod, pre);
      var s' := Next(s, watchPeriod, e).0;
      if e.Incr? {
        IncrEffect(s, watchPeriod, e.ip, e.now, e.since);
      }
      forall ip | ip in s'.items ensures Backed(es, watchPeriod, ip, s'.items[ip]) {
        StepBacked(pre, e, watchPeriod, ip, s, s', if e.Incr? then Next(s, watchPeriod, e).1.value else 0);
      }
    }
  }

  /** `k` hits of `ip` lie in the watch period that starts at `lo` and contains `t`. */
  ghost predicate WindowHolds(es: seq<Event>, watchPeriod: int, ip: string, t: Time, k: nat, lo: Time) {
    && lo <= t <= lo + Max(watchPeriod, 0)
    && HitsWithin(es, ip, lo, lo + Max(watchPeriod, 0)) >= k
  }

  lemma HitWindow(pre: seq<Event>, s: Counters, watchPeriod: int, ip: string, now: Time, since: Time,
                  t: Counters, c: int)
    requires ClockNeverBack(pre + [Incr(ip, now, since)]) && c != 0
    requires HitEffect(s, watchPeriod, ip, now, t, c)
    requires ip in s.items ==> Backed(pre, watchPeriod, ip, s.items[ip])
    ensures WindowHolds(pre + [Incr(ip, now, since)], watchPeriod, ip, now, c, t.items[ip].watchTime - watchPeriod)
  {
    var e := Incr(ip, now, since);
    StepBacked(pre, e, watchPeriod, ip, s, t, c);
    if t.items[ip] != Record(1, now + watchPeriod) {
      var i :| 0 <= i < |pre| && pre[i].Incr? && s.items[ip].watchTime - watchPeriod <= pre[i].now;
      assert (pre + [e])[i] == pre[i] && (pre + [e])[|pre|] == e;
    }
  }

  /** In every interleaving of hits and deletions, a hit whose count is positive rests on that many
      hits of the address inside one watch period around it. */
  lemma CountRestsOnHits(watchPeriod: int, pre: seq<Event>, ip: string, now: Time, since: Time)
    requires ClockNeverBack(pre + [Incr(ip, now, since)])
    ensures var c := IncrStep(After(watchPeriod, pre), watchPeriod, ip, now, since).1;
      c >= 0 && (c > 0 ==> exists lo :: WindowHolds(pre + [Incr(ip, now, since)], watchPeriod, ip, now, c, lo))
  {
    assert pre == (pre + [Incr(ip, now, since)])[..|pre|];
    CountsAreBacked(watchPeriod, pre);
    var s := After(watchPeriod, pre);
    var (t, c) := IncrStep(s, watchPeriod, ip, now, since);
    IncrEffect(s, watchPeriod, ip, now, since);
    if c > 0 {
      HitWindow(pre, s, watchPeriod, ip, now, since, t, c);
    }
  }
}
