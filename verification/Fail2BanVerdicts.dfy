/** What the verdicts of the middleware (`web/gin/middleware/fail2ban/fail2ban.go`) rest on, over whole runs of
    requests: bans on counted 404 answers only, and refusals on the last ban only. */
module Fail2BanVerdicts {
  import opened Prelude
  import opened SuspectedTable
  import opened SuspendedTable
  import opened Fail2Bans

  // ----- the hits behind a run of requests -----

  /** The counter events of one request: a hit if it was let in and answered 404, and a deletion if that banned it. */
  function EventsOf(r: Request, v: Verdict): seq<Event> {
    if v == TurnedAway || !r.notFound then []
    else [Incr(r.ip, r.now, r.since)] + if v == BannedNow then [Event.Del(r.ip)] else []
  }

  /** The verdicts of a run. */
  function Verdicts(c: Config, rs: seq<Request>, states: seq<Tables>): (vs: seq<Verdict>)
    requires |states| == |rs| + 1
    ensures |vs| == |rs|
  {
    seq(|rs|, i requires 0 <= i < |rs| => VerdictAt(c, rs, states, i))
  }

  function EventsUpTo(rs: seq<Request>, vs: seq<Verdict>, n: nat): seq<Event>
    requires n <= |rs| == |vs|
  {
    if n == 0 then [] else EventsUpTo(rs, vs, n - 1) + EventsOf(rs[n - 1], vs[n - 1])
  }

  lemma AfterOne(watchPeriod: int, es: seq<Event>, e: Event)
    ensures After(watchPeriod, es + [e]) == SuspectedTable.Next(After(watchPeriod, es), watchPeriod, e).0
  {
    assert (es + [e])[..|es|] == es;
  }

  lemma AfterHitAndDel(watchPeriod: int, es: seq<Event>, hit: Event, del: Event)
    ensures After(watchPeriod, es + [hit, del])
            == SuspectedTable.Next(SuspectedTable.Next(After(watchPeriod, es), watchPeriod, hit).0, watchPeriod, del).0
  {
    AfterOne(watchPeriod, es, hit);
    AfterOne(watchPeriod, es + [hit], del);
    assert es + [hit] + [del] == es + [hit, del];
  }

  lemma AfterRequest(c: Config, es: seq<Event>, t: Tables, r: Request)
    requires t.counters == After(c.watchPeriod, es)
    ensures var (u, v) := HandleStep(t, c, r); u.counters == After(c.watchPeriod, es + EventsOf(r, v))
  {
    var v := HandleStep(t, c, r).1;
    var hit, del := Incr(r.ip, r.now, r.since), Event.Del(r.ip);
    if v == TurnedAway || !r.notFound {
      assert es + EventsOf(r, v) == es;
    } else if v == BannedNow {
      AfterHitAndDel(c.watchPeriod, es, hit, del);
      assert EventsOf(r, v) == [hit, del];
    } else {
      AfterOne(c.watchPeriod, es, hit);
      assert EventsOf(r, v) == [hit];
    }
  }

  lemma NextCounters(c: Config, rs: seq<Request>, vs: seq<Verdict>, m: nat, t: Tables)
    requires m < |rs| == |vs| && HandleStep(t, c, rs[m]).1 == vs[m]
    requires t.counters == After(c.watchPeriod, EventsUpTo(rs, vs, m))
    ensures HandleStep(t, c, rs[m]).0.counters == After(c.watchPeriod, EventsUpTo(rs, vs, m + 1))
  {
    AfterRequest(c, EventsUpTo(rs, vs, m), t, rs[m]);
  }

  lemma {:induction false} CountersFollowEvents(c: Config, rs: seq<Request>, vs: seq<Verdict>, states: seq<Tables>,
                                                n: nat)
    requires n <= |rs| == |vs| && |states| == |rs| + 1 && states[0] == EMPTY
    requires forall i :: 0 <= i < |rs| ==>
      states[i + 1] == HandleStep(states[i], c, rs[i]).0 && vs[i] == HandleStep(states[i], c, rs[i]).1
    ensures states[n].counters == After(c.watchPeriod, EventsUpTo(rs, vs, n))
  {
    if n > 0 {
      CountersFollowEvents(c, rs, vs, states, n - 1);
      NextCounters(c, rs, vs, n - 1, states[n - 1]);
    }
  }

  /** The counters are what the 404 answers to requests let in make of them; no other request touches them. */
  lemma CountersFollowNotFounds(c: Config, rs: seq<Request>, states: seq<Tables>, n: nat)
    requires IsRequestRun(c, rs, states) && n <= |rs|
    ensures states[n].counters == After(c.watchPeriod, EventsUpTo(rs, Verdicts(c, rs, states), n))
  {
    CountersFollowEvents(c, rs, Verdicts(c, rs, states), states, n);
  }

  /** The hits among the events are in order, the last not after `last`. */
  ghost predicate InOrderUntil(es: seq<Event>, last: Time) {
    && ClockNeverBack(es)
    && forall k :: 0 <= k < |es| && es[k].Incr? ==> es[k].now <= last
  }

  lemma RequestKeepsOrder(es: seq<Event>, r: Request, v: Verdict)
    requires InOrderUntil(es, r.now)
    ensures InOrderUntil(es + EventsOf(r, v), r.now)
  {
  }

  lemma {:induction false} EventsHaveRequestTimes(rs: seq<Request>, vs: seq<Verdict>, n: nat, last: Time)
    requires n <= |rs| == |vs| && RequestsInOrder(rs)
    requires forall i :: 0 <= i < n ==> rs[i].now <= last
    ensures InOrderUntil(EventsUpTo(rs, vs, n), last)
  {
    if n > 0 {
      forall i | 0 <= i < n - 1 ensures rs[i].now <= rs[n - 1].now {
        assert rs[i].now <= rs[i].banNow <= rs[n - 1].isNow <= rs[n - 1].now;
      }
      EventsHaveRequestTimes(rs, vs, n - 1, rs[n - 1].now);
      RequestKeepsOrder(EventsUpTo(rs, vs, n - 1), rs[n - 1], vs[n - 1]);
    }
  }

  /** Whether a request of `ip` was let in and answered 404 at a time in `[lo, hi]`. */
  predicate IsCounted(r: Request, v: Verdict, ip: string, lo: Time, hi: Time) {
    r.ip == ip && r.notFound && v != TurnedAway && lo <= r.now <= hi
  }

  function CountedWithin(rs: seq<Request>, vs: seq<Verdict>, ip: string, lo: Time, hi: Time): nat -> bool {
    (i: nat) => i < |rs| && i < |vs| && IsCounted(rs[i], vs[i], ip, lo, hi)
  }

  lemma {:induction false} HitsAreCountedRequests(rs: seq<Request>, vs: seq<Verdict>, n: nat, ip: string, lo: Time,
                                                  hi: Time)
    requires n <= |rs| == |vs|
    ensures Count(CountedWithin(rs, vs, ip, lo, hi), 0, n) == HitsWithin(EventsUpTo(rs, vs, n), ip, lo, hi)
  {
    if n > 0 {
      HitsAreCountedRequests(rs, vs, n - 1, ip, lo, hi);
      HitsOfRequest(EventsUpTo(rs, vs, n - 1), rs[n - 1], vs[n - 1], ip, lo, hi);
      CountOneMore(CountedWithin(rs, vs, ip, lo, hi), n - 1);
      assert CountedWithin(rs, vs, ip, lo, hi)(n - 1) == IsCounted(rs[n - 1], vs[n - 1], ip, lo, hi);
    }
  }

  lemma CountOneMore(p: nat -> bool, n: nat)
    ensures Count(p, 0, n + 1) == Count(p, 0, n) + if p(n) then 1 else 0
  {
  }

  lemma HitsOfRequest(es: seq<Event>, r: Request, v: Verdict, ip: string, lo: Time, hi: Time)
    ensures HitsWithin(es + EventsOf(r, v), ip, lo, hi)
            == HitsWithin(es, ip, lo, hi) + if IsCounted(r, v, ip, lo, hi) then 1 else 0
  {
    var hit, del := Incr(r.ip, r.now, r.since), Event.Del(r.ip);
    HitsWithinExtended(es, hit, ip, lo, hi);
    HitsWithinExtended(es + [hit], del, ip, lo, hi);
    assert es + [hit] + [del] == es + ([hit] + [del]);
    assert es + [] == es && [hit] + [] == [hit];
  }

  // ----- bans -----

  /** `lo` starts a watch period around request `i` with at least `watchCount` counted requests of its address. */
  ghost predicate BackedBy(c: Config, rs: seq<Request>, vs: seq<Verdict>, i: nat, lo: Time)
    requires i < |rs|
  {
    && lo <= rs[i].now <= lo + Max(c.watchPeriod, 0)
    && Count(CountedWithin(rs, vs, rs[i].ip, lo, lo + Max(c.watchPeriod, 0)), 0, i + 1) >= c.watchCount
  }

  /** In every run of requests one that gets its address banned is itself answered 404, and at least `watchCount`
      requests of the address up to it were let in and answered 404 inside one watch period. */
  lemma BanRestsOnNotFounds(c: Config, rs: seq<Request>, states: seq<Tables>, i: nat)
    requires c.watchCount >= 1 && IsRequestRun(c, rs, states) && RequestsInOrder(rs)
    requires i < |rs| && VerdictAt(c, rs, states, i) == BannedNow
    ensures rs[i].notFound && exists lo :: BackedBy(c, rs, Verdicts(c, rs, states), i, lo)
  {
    var vs := Verdicts(c, rs, states);
    var pre := EventsUpTo(rs, vs, i);
    HitsKeepOrder(rs, vs, i);
    CountersFollowNotFounds(c, rs, states, i);
    var lo := BanWindow(c, rs[i], states[i], pre);
    WindowOfHit(c, rs[i], pre, lo);
    HitsBackRequest(c, rs, vs, i, lo);
  }

  lemma WindowOfHit(c: Config, r: Request, pre: seq<Event>, lo: Time)
    requires c.watchCount >= 1 && r.notFound
    requires WindowHolds(pre + [Incr(r.ip, r.now, r.since)], c.watchPeriod, r.ip, r.now, c.watchCount, lo)
    ensures lo <= r.now <= lo + Max(c.watchPeriod, 0)
    ensures HitsWithin(pre + EventsOf(r, BannedNow), r.ip, lo, lo + Max(c.watchPeriod, 0)) >= c.watchCount
  {
    var hi := lo + Max(c.watchPeriod, 0);
    HitsWithinExtended(pre, Incr(r.ip, r.now, r.since), r.ip, lo, hi);
    HitsOfRequest(pre, r, BannedNow, r.ip, lo, hi);
  }

  lemma {:induction false} HitsBackRequest(c: Config, rs: seq<Request>, vs: seq<Verdict>, i: nat, lo: Time)
    requires i < |rs| == |vs| && vs[i] == BannedNow && lo <= rs[i].now <= lo + Max(c.watchPeriod, 0)
    requires HitsWithin(EventsUpTo(rs, vs, i + 1), rs[i].ip, lo, lo + Max(c.watchPeriod, 0)) >= c.watchCount
    ensures BackedBy(c, rs, vs, i, lo)
  {
    HitsAreCountedRequests(rs, vs, i + 1, rs[i].ip, lo, lo + Max(c.watchPeriod, 0));
  }

  lemma BannedByHit(c: Config, r: Request, t: Tables)
    requires HandleStep(t, c, r).1 == BannedNow
    ensures r.notFound && CountHit(t.counters, c, r.ip, r.now, r.since).1
  {
  }

  lemma BanWindow(c: Config, r: Request, t: Tables, pre: seq<Event>) returns (lo: Time)
    requires c.watchCount >= 1 && ClockNeverBack(pre + [Incr(r.ip, r.now, r.since)])
    requires t.counters == After(c.watchPeriod, pre) && HandleStep(t, c, r).1 == BannedNow
    ensures r.notFound
    ensures WindowHolds(pre + [Incr(r.ip, r.now, r.since)], c.watchPeriod, r.ip, r.now, c.watchCount, lo)
  {
    BannedByHit(c, r, t);
    BanRestsOnEnoughHits(c, pre, r.ip, r.now, r.since);
    lo :| WindowHolds(pre + [Incr(r.ip, r.now, r.since)], c.watchPeriod, r.ip, r.now, c.watchCount, lo);
  }

  lemma HitsKeepOrder(rs: seq<Request>, vs: seq<Verdict>, i: nat)
    requires i < |rs| == |vs| && RequestsInOrder(rs)
    ensures ClockNeverBack(EventsUpTo(rs, vs, i) + [Incr(rs[i].ip, rs[i].now, rs[i].since)])
  {
    forall k | 0 <= k < i ensures rs[k].now <= rs[i].now {
      assert rs[k].now <= rs[k].banNow <= rs[i].isNow <= rs[i].now;
    }
    EventsHaveRequestTimes(rs, vs, i, rs[i].now);
  }

  // ----- refusals -----

  /** The last request of `ip` before `n` that got it banned. */
  function LastBan(c: Config, rs: seq<Request>, states: seq<Tables>, n: nat, ip: string): (r: Option<nat>)
    requires n <= |rs| && |states| == |rs| + 1
    ensures r.Some? ==> r.value < n && rs[r.value].ip == ip && VerdictAt(c, rs, states, r.value) == BannedNow
    ensures forall i :: 0 <= i < n && rs[i].ip == ip && VerdictAt(c, rs, states, i) == BannedNow ==>
                          r.Some? && i <= r.value
  {
    if n == 0 then None
    else if rs[n - 1].ip == ip && VerdictAt(c, rs, states, n - 1) == BannedNow then Some(n - 1)
    else LastBan(c, rs, states, n - 1, ip)
  }

  /** When the last ban of `ip` ends, if it had one. */
  function BanEnd(c: Config, rs: seq<Request>, states: seq<Tables>, n: nat, ip: string): Option<Time>
    requires n <= |rs| && |states| == |rs| + 1
  {
    match LastBan(c, rs, states, n, ip)
    case None => None
    case Some(i) => Some(rs[i].banNow + c.banPeriod)
  }

  /** At clock reading `clock` the ban table lacks only bans that are over. */
  ghost predicate BansFollow(bans: Bans, ip: string, end: Option<Time>, clock: Time) {
    && (ip in bans.items ==> end == Some(bans.items[ip]))
    && (ip !in bans.items && end.Some? ==> end.value < clock)
  }

  lemma RequestKeepsBans(c: Config, t: Tables, r: Request, ip: string, end: Option<Time>)
    requires BansFollow(t.bans, ip, end, r.isNow)
    ensures var (u, v) := HandleStep(t, c, r);
      BansFollow(u.bans, ip, if r.ip == ip && v == BannedNow then Some(r.banNow + c.banPeriod) else end, r.isNow)
  {
  }

  lemma {:induction false} BansFollowLastBan(c: Config, rs: seq<Request>, states: seq<Tables>, n: nat, ip: string,
                                             clock: Time)
    requires IsRequestRun(c, rs, states) && RequestsInOrder(rs) && n <= |rs|
    requires n > 0 ==> rs[n - 1].isNow <= clock
    ensures BansFollow(states[n].bans, ip, BanEnd(c, rs, states, n, ip), clock)
  {
    if n > 0 {
      if n > 1 {
        assert rs[n - 2].isNow <= rs[n - 2].banNow <= rs[n - 1].isNow;
      }
      BansFollowLastBan(c, rs, states, n - 1, ip, rs[n - 1].isNow);
      RequestKeepsBans(c, states[n - 1], rs[n - 1], ip, BanEnd(c, rs, states, n - 1, ip));
    }
  }

  /** In every run a request is turned away exactly if its address was banned before and the last ban has not ended:
      neither sooner nor longer, and whatever sweeps and other requests come in between. */
  lemma TurnedAwayIffLastBanLasts(c: Config, rs: seq<Request>, states: seq<Tables>, m: nat)
    requires IsRequestRun(c, rs, states) && RequestsInOrder(rs) && m < |rs|
    ensures VerdictAt(c, rs, states, m) == TurnedAway <==>
              var last := LastBan(c, rs, states, m, rs[m].ip);
              last.Some? && rs[m].isNow <= rs[last.value].banNow + c.banPeriod
  {
    if m > 0 {
      assert rs[m - 1].isNow <= rs[m - 1].banNow <= rs[m].isNow;
    }
    BansFollowLastBan(c, rs, states, m, rs[m].ip, rs[m].isNow);
  }

  /** Every request tidies the ban table: its own address is in it afterwards exactly if it was turned away or has just
      been banned, and other bans go only in a sweep. */
  lemma RequestTidiesBans(c: Config, t: Tables, r: Request, other: string)
    requires other != r.ip
    ensures var (u, v) := HandleStep(t, c, r);
      var due := |t.bans.items| > 1024
        && (t.bans.lastSweep.Some? ==> r.isSince - t.bans.lastSweep.value > 30_000_000_000);
      && (r.ip in u.bans.items <==> v != Passed)
      && (v == BannedNow ==> u.bans.items[r.ip] == r.banNow + c.banPeriod)
      && (other in u.bans.items <==> other in t.bans.items && (due ==> r.isNow <= t.bans.items[other]))
      && u.bans.lastSweep == if due then Some(r.isNow) else t.bans.lastSweep
  {
    BansSweptOnlyWhenLarge(t.bans, r.ip, r.isNow, r.isSince, other);
  }

  /** Every request treats the counters of other addresses alike: they go only in a sweep, and only a request that was
      let in and answered 404 sweeps. */
  lemma RequestTidiesCounters(c: Config, t: Tables, r: Request, other: string)
    requires other != r.ip
    ensures var (u, v) := HandleStep(t, c, r);
      var due := |t.counters.items| > 1024
        && (t.counters.lastSweep.Some? ==> r.since - t.counters.lastSweep.value > 30_000_000_000);
      if v == TurnedAway || !r.notFound then u.counters == t.counters
      else
        && (other in u.counters.items <==>
              other in t.counters.items && (due ==> r.now <= t.counters.items[other].watchTime))
        && (other in u.counters.items ==> u.counters.items[other] == t.counters.items[other])
        && u.counters.lastSweep == (if due then Some(r.now) else t.counters.lastSweep)
        && (v == BannedNow ==> r.ip !in u.counters.items)
  {
    SweptOnlyWhenLarge(t.counters, c.watchPeriod, r.ip, r.now, r.since, other);
    var w := IncrStep(t.counters, c.watchPeriod, r.ip, r.now, r.since).0;
    DeletesOne(w, r.ip, other);
  }
}
