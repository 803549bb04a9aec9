/** The middleware (`web/gin/middleware/fail2ban/fail2ban.go`): counting 404 answers per
    address, banning at the threshold, and turning banned addresses away.  Requests are
    handled one at a time, except where a lemma speaks of interleavings. */
module Fail2Bans {
  import opened Prelude
  import opened SuspectedTable
  import opened SuspendedTable

  datatype Config = Config(watchPeriod: int, watchCount: int, banPeriod: int)

  datatype Tables = Tables(counters: Counters, bans: Bans)

  const EMPTY := Tables(Counters(map[], None), Bans(map[], None))

  /** The counter side of a 404: the new counters, and whether the address gets banned. */
  function CountHit(s: Counters, c: Config, ip: string, now: Time, since: Time): (Counters, bool) {
    var (t, count) := IncrStep(s, c.watchPeriod, ip, now, since);
    if count > c.watchCount - 1 then (DelStep(t, ip), true) else (t, false)
  }

  /** `processStatusNotFound`; `banNow` is the clock when the ban is entered. */
  function NotFoundStep(t: Tables, c: Config, ip: string, now: Time, since: Time, banNow: Time): (Tables, bool) {
    var (counters, banned) := CountHit(t.counters, c, ip, now, since);
    (Tables(counters, if banned then AddStep(t.bans, c.banPeriod, ip, banNow) else t.bans), banned)
  }

  /** One request with the successive clock readings of its handling; `notFound` is what the inner handler answers. */
  datatype Request = Request(
    ip: string, isNow: Time, isSince: Time, notFound: bool, now: Time, since: Time, banNow: Time)

  datatype Verdict = TurnedAway | Passed | BannedNow

  function HandleStep(t: Tables, c: Config, r: Request): (Tables, Verdict) {
    var (bans, banned) := IsStep(t.bans, r.ip, r.isNow, r.isSince);
    var u := t.(bans := bans);
    if banned then (u, TurnedAway)
    else if r.notFound then
      var (v, b) := NotFoundStep(u, c, r.ip, r.now, r.since, r.banNow);
      (v, if b then BannedNow else Passed)
    else (u, Passed)
  }

  class Fail2Ban {
    const suspected: Suspected
    const suspended: Suspended
    const watchCnt: int

    function State(): Tables
      reads suspected, suspended
    {
      Tables(suspected.State(), suspended.State())
    }

    predicate Configured(c: Config) {
      watchCnt == c.watchCount - 1 && suspected.watchPeriod == c.watchPeriod && suspended.banPeriod == c.banPeriod
    }

    constructor (c: Config)
      ensures Configured(c) && State() == EMPTY && fresh(suspected) && fresh(suspended)
    {
      watchCnt := c.watchCount - 1;
      suspected := new Suspected(c.watchPeriod);
      suspended := new Suspended(c.banPeriod);
    }

    method ProcessStatusNotFound(ghost c: Config, ip: string, now: Time, since: Time, banNow: Time)
      returns (banned: bool)
      requires Configured(c)
      modifies suspected, suspended
      ensures (State(), banned) == NotFoundStep(old(State()), c, ip, now, since, banNow)
    {
      var count := suspected.Incr(ip, now, since);
      banned := count > watchCnt;
      if banned {
        suspected.Del(ip);
        suspended.Add(ip, banNow);
      }
    }

    method Handle(ghost c: Config, r: Request) returns (v: Verdict)
      requires Configured(c)
      modifies suspected, suspended
      ensures (State(), v) == HandleStep(old(State()), c, r)
    {
      var banned := suspended.Is(r.ip, r.isNow, r.isSince);
      if banned {
        return TurnedAway;
      }
      if r.notFound {
        var b := ProcessStatusNotFound(c, r.ip, r.now, r.since, r.banNow);
        return if b then BannedNow else Passed;
      }
      return Passed;
    }
  }

  // ----- no ban without enough hits -----

  /** Whatever hits and deletions came before and in whatever order they interleaved, a hit that bans its
      address rests on at least `watchCount` hits of that address inside one watch period around it. */
  lemma BanRestsOnEnoughHits(c: Config, pre: seq<Event>, ip: string, now: Time, since: Time)
    requires c.watchCount >= 1 && ClockNeverBack(pre + [Incr(ip, now, since)])
    requires CountHit(After(c.watchPeriod, pre), c, ip, now, since).1
    ensures exists lo :: WindowHolds(pre + [Incr(ip, now, since)], c.watchPeriod, ip, now, c.watchCount, lo)
  {
    CountRestsOnHits(c.watchPeriod, pre, ip, now, since);
    var count := IncrStep(After(c.watchPeriod, pre), c.watchPeriod, ip, now, since).1;
    var lo :| WindowHolds(pre + [Incr(ip, now, since)], c.watchPeriod, ip, now, count, lo);
    assert WindowHolds(pre + [Incr(ip, now, since)], c.watchPeriod, ip, now, c.watchCount, lo);
  }

  // ----- enough hits always ban -----

  /** A 404 of `ip`, handled as a whole. */
  datatype Hit = Hit(ip: string, now: Time, since: Time)

  /** `states` are the counters that the hits, handled one after the other, go through. */
  ghost predicate IsHitRun(c: Config, hits: seq<Hit>, states: seq<Counters>) {
    && |states| == |hits| + 1 && states[0] == EMPTY.counters
    && forall i :: 0 <= i < |hits| ==> states[i + 1] == CountHit(states[i], c, hits[i].ip, hits[i].now, hits[i].since).0
  }

  /** Whether hit `i` bans its address. */
  predicate BansAt(c: Config, hits: seq<Hit>, states: seq<Counters>, i: nat)
    requires i < |hits| && i < |states|
  {
    CountHit(states[i], c, hits[i].ip, hits[i].now, hits[i].since).1
  }

  /** How many of the hits `a` up to, not including, `b` are hits of `ip`. */
  function HitsOf(hits: seq<Hit>, ip: string, a: nat, b: nat): nat
    requires a <= b
  {
    Count(IsHitOf(hits, ip), a, b)
  }

  function IsHitOf(hits: seq<Hit>, ip: string): nat -> bool {
    (i: nat) => i < |hits| && hits[i].ip == ip
  }

  ghost predicate WithinWatchPeriod(c: Config, hits: seq<Hit>, a: nat, b: nat)
    requires a <= b <= |hits|
  {
    forall i :: a <= i < b ==> hits[a].now <= hits[i].now <= hits[a].now + c.watchPeriod
  }

  /** No record is at the threshold: the hit that reaches it deletes the record. */
  ghost predicate BelowThreshold(s: Counters, c: Config) {
    forall ip :: ip in s.items ==> 1 <= s.items[ip].count < c.watchCount
  }

  lemma {:induction false} AlwaysBelowThreshold(c: Config, hits: seq<Hit>, states: seq<Counters>, n: nat)
    requires c.watchCount >= 1 && IsHitRun(c, hits, states) && n <= |hits|
    ensures BelowThreshold(states[n], c)
  {
    if n > 0 {
      AlwaysBelowThreshold(c, hits, states, n - 1);
    }
  }

  /** How many more hits of `ip` up to time `end` are sure to ban it: a record whose window ends earlier
      may still collect `watchCount - 1` hits, lose one, and start over. */
  ghost function HitsNeeded(s: Counters, c: Config, ip: string, end: Time): int {
    if ip !in s.items then c.watchCount
    else if s.items[ip].watchTime >= end then c.watchCount - s.items[ip].count
    else 2 * c.watchCount - s.items[ip].count
  }

  lemma HitsNeededBounds(s: Counters, c: Config, ip: string, end: Time)
    requires c.watchCount >= 1 && BelowThreshold(s, c)
    ensures 1 <= HitsNeeded(s, c, ip, end) <= 2 * c.watchCount - 1
  {
  }

  lemma HitGetsCloser(s: Counters, c: Config, h: Hit, ip: string, end: Time)
    requires c.watchCount >= 1 && BelowThreshold(s, c)
    requires end - c.watchPeriod <= h.now <= end
    ensures var (t, banned) := CountHit(s, c, h.ip, h.now, h.since);
      (banned && h.ip == ip) || HitsNeeded(t, c, ip, end) <= HitsNeeded(s, c, ip, end) - if h.ip == ip then 1 else 0
  {
  }

  lemma {:induction false} UnbannedHitsGetCloser(c: Config, hits: seq<Hit>, states: seq<Counters>, ip: string,
                                                 end: Time, a: nat, b: nat)
    requires c.watchCount >= 1 && IsHitRun(c, hits, states) && a <= b <= |hits|
    requires forall i :: a <= i < b ==> end - c.watchPeriod <= hits[i].now <= end
    requires forall i :: a <= i < b && hits[i].ip == ip ==> !BansAt(c, hits, states, i)
    ensures HitsNeeded(states[b], c, ip, end) <= HitsNeeded(states[a], c, ip, end) - HitsOf(hits, ip, a, b)
    decreases b
  {
    if a < b {
      UnbannedHitsGetCloser(c, hits, states, ip, end, a, b - 1);
      AlwaysBelowThreshold(c, hits, states, b - 1);
      HitGetsCloser(states[b - 1], c, hits[b - 1], ip, end);
      assert hits[b - 1].ip == ip ==> !BansAt(c, hits, states, b - 1);
    }
  }

  /** At any point of any run, `2 * watchCount - 1` hits of one address inside a watch period ban it by the
      last of them, whatever hits of other addresses and sweeps come in between. */
  lemma FrequentOffenderIsBanned(c: Config, hits: seq<Hit>, states: seq<Counters>, ip: string, a: nat, b: nat)
    requires c.watchCount >= 1 && IsHitRun(c, hits, states) && a <= b <= |hits|
    requires WithinWatchPeriod(c, hits, a, b) && HitsOf(hits, ip, a, b) >= 2 * c.watchCount - 1
    ensures exists i :: a <= i < b && hits[i].ip == ip && BansAt(c, hits, states, i)
  {
    AlwaysBelowThreshold(c, hits, states, a);
    AlwaysBelowThreshold(c, hits, states, b);
    if forall i :: a <= i < b && hits[i].ip == ip ==> !BansAt(c, hits, states, i) {
      UnbannedHitsGetCloser(c, hits, states, ip, hits[a].now + c.watchPeriod, a, b);
    }
  }

  // ----- one hit less need not ban -----

  /** A table never swept, holding one record of `ip`. */
  function Only(ip: string, count: int, watchTime: Time): Counters {
    Counters(map[ip := Record(count, watchTime)], None)
  }

  lemma HitInsideWindow(c: Config, h: Hit, count: int, watchTime: Time)
    requires h.now <= watchTime && count + 1 < c.watchCount
    ensures CountHit(Only(h.ip, count, watchTime), c, h.ip, h.now, h.since) == (Only(h.ip, count + 1, watchTime), false)
  {
    var s := Only(h.ip, count, watchTime);
    assert |s.items| == 1;
    assert s.items[h.ip := Record(count + 1, watchTime)] == Only(h.ip, count + 1, watchTime).items;
  }

  lemma HitAfterWindow(c: Config, h: Hit, count: int, watchTime: Time)
    requires watchTime < h.now && c.watchCount >= 1
    ensures CountHit(Only(h.ip, count, watchTime), c, h.ip, h.now, h.since) == (EMPTY.counters, false)
  {
    var s := Only(h.ip, count, watchTime);
    assert |s.items| == 1;
    assert s.items - {h.ip} == map[];
  }

  /** One hit at time 0, then `n` hits at the end of its window `p` that still count, one that is lost to the
      expiry, and `n + 1` that start over. */
  function WorstHit(ip: string, p: int, n: nat, i: nat): Hit {
    var t := if i == 0 then 0 else if i <= n then p else p + 1;
    Hit(ip, t, t)
  }

  /** The counters before the `i`-th of these hits. */
  function WorstCounters(ip: string, p: int, n: nat, i: nat): Counters {
    if i == 0 || i == n + 2 then EMPTY.counters
    else if i <= n + 1 then Only(ip, i, p)
    else Only(ip, i - n - 2, p + 1 + p)
  }

  lemma WorstHitStep(c: Config, ip: string, p: int, n: nat, i: nat)
    requires n == c.watchCount - 2 && p == c.watchPeriod >= 1 && i < 2 * n + 3
    ensures var h := WorstHit(ip, p, n, i);
      CountHit(WorstCounters(ip, p, n, i), c, h.ip, h.now, h.since) == (WorstCounters(ip, p, n, i + 1), false)
  {
    var h := WorstHit(ip, p, n, i);
    if 0 < i <= n {
      HitInsideWindow(c, h, i, p);
    } else if i == n + 1 {
      HitAfterWindow(c, h, i, p);
    } else if i > n + 2 {
      HitInsideWindow(c, h, i - n - 2, p + 1 + p);
    }
  }

  lemma {:induction false} HitsOfOneAddress(hits: seq<Hit>, ip: string, a: nat, b: nat)
    requires a <= b <= |hits| && forall i :: a <= i < b ==> hits[i].ip == ip
    ensures HitsOf(hits, ip, a, b) == b - a
    decreases b
  {
    if a < b {
      HitsOfOneAddress(hits, ip, a, b - 1);
    }
  }

  /** The bound is exact: for every threshold of at least 2 and every positive watch period there is a run with
      `2 * watchCount - 2` hits of one address inside one watch period and no ban. */
  lemma OneHitLessNeedNotBan(c: Config, ip: string) returns (hits: seq<Hit>, states: seq<Counters>)
    requires c.watchCount >= 2 && c.watchPeriod >= 1
    ensures IsHitRun(c, hits, states)
    ensures |hits| == 2 * c.watchCount - 1 && HitsOf(hits, ip, 1, |hits|) == 2 * c.watchCount - 2
    ensures WithinWatchPeriod(c, hits, 1, |hits|)
    ensures forall i :: 0 <= i < |hits| ==> !BansAt(c, hits, states, i)
  {
    var p, n := c.watchPeriod, c.watchCount - 2;
    hits := seq(2 * n + 3, i requires i >= 0 => WorstHit(ip, p, n, i));
    states := seq(2 * n + 4, i requires i >= 0 => WorstCounters(ip, p, n, i));
    HitsOfOneAddress(hits, ip, 1, |hits|);
    forall i | 0 <= i < |hits|
      ensures states[i + 1] == CountHit(states[i], c, hits[i].ip, hits[i].now, hits[i].since).0
      ensures !BansAt(c, hits, states, i)
    {
      WorstHitStep(c, ip, p, n, i);
    }
  }

  // ----- a banned address is turned away -----

  ghost predicate IsRequestRun(c: Config, rs: seq<Request>, states: seq<Tables>) {
    && |states| == |rs| + 1 && states[0] == EMPTY
    && forall i :: 0 <= i < |rs| ==> states[i + 1] == HandleStep(states[i], c, rs[i]).0
  }

  /** The clock readings of successive requests never go back. */
  ghost predicate RequestsInOrder(rs: seq<Request>) {
    && (forall i :: 0 <= i < |rs| ==> rs[i].isNow <= rs[i].now <= rs[i].banNow)
    && (forall i, j :: 0 <= i < j < |rs| ==> rs[i].banNow <= rs[j].isNow)
  }

  lemma StepKeepsBan(c: Config, t: Tables, r: Request, ip: string, until: Time)
    requires ip in t.bans.items && t.bans.items[ip] >= until
    requires r.isNow <= until <= r.banNow + c.banPeriod
    ensures var u := HandleStep(t, c, r).0; ip in u.bans.items && u.bans.items[ip] >= until
  {
  }

  lemma {:induction false} BanLasts(c: Config, rs: seq<Request>, states: seq<Tables>, a: nat, b: nat, ip: string,
                                    until: Time)
    requires IsRequestRun(c, rs, states) && RequestsInOrder(rs) && a <= b <= |rs|
    requires ip in states[a].bans.items && states[a].bans.items[ip] >= until
    requires forall i :: a <= i < b ==> rs[i].isNow <= until <= rs[i].banNow + c.banPeriod
    ensures ip in states[b].bans.items && states[b].bans.items[ip] >= until
    decreases b
  {
    if a < b {
      BanLasts(c, rs, states, a, b - 1, ip, until);
      StepKeepsBan(c, states[b - 1], rs[b - 1], ip, until);
    }
  }

  /** After a request that got its address banned, every request of that address is turned away until the
      ban period is over, whatever other requests come in between. */
  lemma BannedAddressIsTurnedAway(c: Config, rs: seq<Request>, states: seq<Tables>, a: nat, b: nat)
    requires IsRequestRun(c, rs, states) && RequestsInOrder(rs) && a < b < |rs|
    requires HandleStep(states[a], c, rs[a]).1 == BannedNow
    requires rs[b].ip == rs[a].ip && rs[b].isNow <= rs[a].banNow + c.banPeriod
    ensures HandleStep(states[b], c, rs[b]).1 == TurnedAway
  {
    BanLasts(c, rs, states, a + 1, b, rs[a].ip, rs[a].banNow + c.banPeriod);
  }

  // ----- the middleware as a whole -----

  function VerdictAt(c: Config, rs: seq<Request>, states: seq<Tables>, i: nat): Verdict
    requires i < |rs| && i < |states|
  {
    HandleStep(states[i], c, rs[i]).1
  }

  /** Whether a request is of `ip` and answered 404, by the inner handler or because it is turned away. */
  function AnsweredNotFound(c: Config, rs: seq<Request>, states: seq<Tables>, ip: string): nat -> bool {
    (i: nat) =>
      i < |rs| && i < |states| && rs[i].ip == ip
      && (rs[i].notFound || VerdictAt(c, rs, states, i) == TurnedAway)
  }

  /** How many of the requests `a` up to, not including, `b` these are. */
  function NotFoundAnswersTo(c: Config, rs: seq<Request>, states: seq<Tables>, ip: string, a: nat, b: nat): nat
    requires a <= b
  {
    Count(AnsweredNotFound(c, rs, states, ip), a, b)
  }

  /** Whether a request is of `ip`, was let in and answered 404, so that the middleware counted it. */
  function CountedNotFound(c: Config, rs: seq<Request>, states: seq<Tables>, ip: string): nat -> bool {
    (i: nat) =>
      i < |rs| && i < |states| && rs[i].ip == ip
      && rs[i].notFound && VerdictAt(c, rs, states, i) != TurnedAway
  }

  function NotFoundsOf(c: Config, rs: seq<Request>, states: seq<Tables>, ip: string, a: nat, b: nat): nat
    requires a <= b
  {
    Count(CountedNotFound(c, rs, states, ip), a, b)
  }

  lemma {:induction false} RequestsKeepBelowThreshold(c: Config, rs: seq<Request>, states: seq<Tables>, n: nat)
    requires c.watchCount >= 1 && IsRequestRun(c, rs, states) && n <= |rs|
    ensures BelowThreshold(states[n].counters, c)
  {
    if n > 0 {
      RequestsKeepBelowThreshold(c, rs, states, n - 1);
    }
  }

  lemma RequestGetsCloser(c: Config, t: Tables, r: Request, ip: string, end: Time)
    requires c.watchCount >= 1 && BelowThreshold(t.counters, c)
    requires end - c.watchPeriod <= r.now <= end
    ensures var (u, v) := HandleStep(t, c, r);
      || (v == BannedNow && r.ip == ip)
      || HitsNeeded(u.counters, c, ip, end)
         <= HitsNeeded(t.counters, c, ip, end) - if r.ip == ip && r.notFound && v != TurnedAway then 1 else 0
  {
    HitGetsCloser(t.counters, c, Hit(r.ip, r.now, r.since), ip, end);
  }

  lemma {:induction false} UnbannedRequestsGetCloser(c: Config, rs: seq<Request>, states: seq<Tables>, ip: string,
                                                     end: Time, a: nat, b: nat)
    requires c.watchCount >= 1 && IsRequestRun(c, rs, states) && a <= b <= |rs|
    requires forall i :: a <= i < b ==> end - c.watchPeriod <= rs[i].now <= end
    requires forall i :: a <= i < b && rs[i].ip == ip ==> VerdictAt(c, rs, states, i) != BannedNow
    ensures HitsNeeded(states[b].counters, c, ip, end)
            <= HitsNeeded(states[a].counters, c, ip, end) - NotFoundsOf(c, rs, states, ip, a, b)
    decreases b
  {
    if a < b {
      UnbannedRequestsGetCloser(c, rs, states, ip, end, a, b - 1);
      RequestsKeepBelowThreshold(c, rs, states, b - 1);
      RequestGetsCloser(c, states[b - 1], rs[b - 1], ip, end);
      assert rs[b - 1].ip == ip ==> VerdictAt(c, rs, states, b - 1) != BannedNow;
    }
  }

  lemma UnbannedNotFoundsAreFew(c: Config, rs: seq<Request>, states: seq<Tables>, ip: string, a: nat, b: nat)
    requires c.watchCount >= 1 && IsRequestRun(c, rs, states) && a <= b <= |rs|
    requires forall i :: a <= i < b ==> rs[a].now <= rs[i].now <= rs[a].now + c.watchPeriod
    requires forall i :: a <= i < b && rs[i].ip == ip ==> VerdictAt(c, rs, states, i) != BannedNow
    ensures NotFoundsOf(c, rs, states, ip, a, b) <= 2 * c.watchCount - 2
  {
    if a < b {
      var end := rs[a].now + c.watchPeriod;
      RequestsKeepBelowThreshold(c, rs, states, a);
      RequestsKeepBelowThreshold(c, rs, states, b);
      UnbannedRequestsGetCloser(c, rs, states, ip, end, a, b);
      HitsNeededBounds(states[a].counters, c, ip, end);
      HitsNeededBounds(states[b].counters, c, ip, end);
    }
  }

  lemma BannedRequestShutsOut(c: Config, rs: seq<Request>, states: seq<Tables>, a: nat, i: nat, m: nat)
    requires IsRequestRun(c, rs, states) && RequestsInOrder(rs) && a <= i < m < |rs|
    requires VerdictAt(c, rs, states, i) == BannedNow
    requires rs[m].ip == rs[i].ip && rs[m].isNow <= rs[a].banNow + c.banPeriod
    ensures VerdictAt(c, rs, states, m) == TurnedAway
  {
    assert rs[a].banNow <= rs[i].banNow;
    BannedAddressIsTurnedAway(c, rs, states, i, m);
  }

  /** Whether a request of `ip` at clock reading `now` would be turned away. */
  predicate BannedAt(t: Tables, ip: string, now: Time) {
    ip in t.bans.items && t.bans.items[ip] >= now
  }

  /** An address that is not banned stays so until one of its own requests gets it banned. */
  lemma {:induction false} UnbannedUntilOwnBan(c: Config, rs: seq<Request>, states: seq<Tables>, ip: string, a: nat,
                                               b: nat)
    requires IsRequestRun(c, rs, states) && RequestsInOrder(rs) && a <= b <= |rs|
    requires a < |rs| && !BannedAt(states[a], ip, rs[a].isNow)
    requires forall i :: a <= i < b && rs[i].ip == ip ==> VerdictAt(c, rs, states, i) != BannedNow
    ensures !BannedAt(states[b], ip, rs[a].isNow)
    decreases b
  {
    if a < b {
      UnbannedUntilOwnBan(c, rs, states, ip, a, b - 1);
      assert rs[b - 1].ip == ip ==> VerdictAt(c, rs, states, b - 1) != BannedNow;
    }
  }

  /** While no request of the address gets it banned, none is turned away, so all its answers 404 are counted. */
  lemma {:induction false} UnbannedAnswersAreCounted(c: Config, rs: seq<Request>, states: seq<Tables>, ip: string,
                                                     a: nat, b: nat)
    requires IsRequestRun(c, rs, states) && RequestsInOrder(rs) && a <= b <= |rs|
    requires a < |rs| && !BannedAt(states[a], ip, rs[a].isNow)
    requires forall i :: a <= i < b && rs[i].ip == ip ==> VerdictAt(c, rs, states, i) != BannedNow
    ensures NotFoundAnswersTo(c, rs, states, ip, a, b) == NotFoundsOf(c, rs, states, ip, a, b)
    decreases b
  {
    if a < b {
      UnbannedAnswersAreCounted(c, rs, states, ip, a, b - 1);
      UnbannedUntilOwnBan(c, rs, states, ip, a, b - 1);
      assert rs[a].isNow <= rs[b - 1].isNow;
    }
  }

  /** An address that is not banned and collects `2 * watchCount - 1` answers 404 inside a watch period, those of
      requests turned away included, is turned away from then on, at least until a ban period after the first. */
  lemma OffenderIsShutOut(c: Config, rs: seq<Request>, states: seq<Tables>, ip: string, a: nat, b: nat, m: nat)
    requires c.watchCount >= 1 && IsRequestRun(c, rs, states) && RequestsInOrder(rs) && a <= b <= m < |rs|
    requires !BannedAt(states[a], ip, rs[a].isNow)
    requires forall i :: a <= i < b ==> rs[a].now <= rs[i].now <= rs[a].now + c.watchPeriod
    requires NotFoundAnswersTo(c, rs, states, ip, a, b) >= 2 * c.watchCount - 1
    requires rs[m].ip == ip && rs[m].isNow <= rs[a].banNow + c.banPeriod
    ensures VerdictAt(c, rs, states, m) == TurnedAway
  {
    if forall i :: a <= i < b && rs[i].ip == ip ==> VerdictAt(c, rs, states, i) != BannedNow {
      UnbannedAnswersAreCounted(c, rs, states, ip, a, b);
      UnbannedNotFoundsAreFew(c, rs, states, ip, a, b);
      assert false;
    }
    var i :| a <= i < b && rs[i].ip == ip && VerdictAt(c, rs, states, i) == BannedNow;
    BannedRequestShutsOut(c, rs, states, a, i, m);
  }
}
