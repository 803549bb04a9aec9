/** The ban table (`web/gin/middleware/fail2ban/suspended.go`): bans expire, are deleted
    when read late, and are swept now and then.  None of that can be observed. */
module SuspendedTable {
  import opened Prelude
  import opened SuspectedTable

  datatype Bans = Bans(items: map<string, Time>, lastSweep: Option<Time>)

  function SweptBans(items: map<string, Time>, now: Time): map<string, Time> {
    map ip | ip in items && !(items[ip] < now) :: items[ip]
  }

  function AddStep(s: Bans, banPeriod: int, ip: string, now: Time): Bans {
    s.(items := s.items[ip := now + banPeriod])
  }

  function IsStep(s: Bans, ip: string, now: Time, since: Time): (Bans, bool) {
    var t := if SweepDue(|s.items|, s.lastSweep, since) then Bans(SweptBans(s.items, now), Some(now)) else s;
    if ip !in t.items then (t, false)
    else if t.items[ip] < now then (t.(items := t.items - {ip}), false)
    else (t, true)
  }

  /** Bans of other addresses go only in a sweep, as the counters do; the address's own stays exactly if it holds. */
  lemma BansSweptOnlyWhenLarge(s: Bans, ip: string, now: Time, since: Time, other: string)
    requires other != ip
    ensures var (t, banned) := IsStep(s, ip, now, since);
      && (ip in t.items <==> banned)
      && (banned <==> ip in s.items && now <= s.items[ip])
      && (banned ==> t.items[ip] == s.items[ip])
    ensures var t := IsStep(s, ip, now, since).0;
      var due := |s.items| > 1024 && (s.lastSweep.Some? ==> since - s.lastSweep.value > 30_000_000_000);
      && (other in t.items <==> other in s.items && (due ==> now <= s.items[other]))
      && (other in t.items ==> t.items[other] == s.items[other])
      && t.lastSweep == if due then Some(now) else s.lastSweep
  {
  }

  class Suspended {
    var items: map<string, Time>
    var lastSweep: Option<Time>
    const banPeriod: int

    function State(): Bans
      reads this
    {
      Bans(items, lastSweep)
    }

    constructor (period: int)
      ensures State() == Bans(map[], None) && banPeriod == period
    {
      items, lastSweep := map[], None;
      banPeriod := period;
    }

    method Add(ip: string, now: Time)
      modifies this`items
      ensures State() == AddStep(old(State()), banPeriod, ip, now)
    {
      items := items[ip := now + banPeriod];
    }

    method Sweep(now: Time)
      modifies this`items
      ensures items == SweptBans(old(items), now)
    {
      var todo := items.Keys;
      while todo != {}
        invariant todo <= items.Keys <= old(items).Keys
        invariant forall ip :: ip in items ==> items[ip] == old(items)[ip]
        invariant forall ip :: ip in old(items) && ip !in todo ==> (ip in items <==> !(old(items)[ip] < now))
        decreases todo
      {
        var ip :| ip in todo;
        if items[ip] < now {
          items := items - {ip};
        }
        todo := todo - {ip};
      }
    }

    method Is(ip: string, now: Time, since: Time) returns (banned: bool)
      modifies this
      ensures (State(), banned) == IsStep(old(State()), ip, now, since)
    {
      if SweepDue(|items|, lastSweep, since) {
        Sweep(now);
        lastSweep := Some(now);
      }
      if ip !in items {
        return false;
      }
      if items[ip] < now {
        items := items - {ip};
        return false;
      }
      return true;
    }
  }

  // ----- runs -----

  datatype BanEvent = Add(ip: string, now: Time) | Is(ip: string, now: Time, since: Time)

  function NextBans(s: Bans, banPeriod: int, e: BanEvent): Bans {
    match e
    case Add(ip, now) => AddStep(s, banPeriod, ip, now)
    case Is(ip, now, since) => IsStep(s, ip, now, since).0
  }

  /** `states` are the tables the events go through. */
  ghost predicate IsBanRun(banPeriod: int, es: seq<BanEvent>, states: seq<Bans>) {
    && |states| == |es| + 1 && states[0] == Bans(map[], None)
    && (forall i, j :: 0 <= i <= j < |es| ==> es[i].now <= es[j].now)
    && forall i :: 0 <= i < |es| ==> states[i + 1] == NextBans(states[i], banPeriod, es[i])
  }

  /** The append-only reference: when `ip` was last added during the first `n` events. */
  function LastAdd(es: seq<BanEvent>, n: nat, ip: string): Option<Time>
    requires n <= |es|
  {
    if n == 0 then None
    else if es[n - 1].Add? && es[n - 1].ip == ip then Some(es[n - 1].now)
    else LastAdd(es, n - 1, ip)
  }

  /** At clock reading `clock` the table lacks only bans that are over. */
  ghost predicate BansAgree(s: Bans, banPeriod: int, es: seq<BanEvent>, n: nat, clock: Time)
    requires n <= |es|
  {
    && (forall ip :: ip in s.items ==> LastAdd(es, n, ip) == Some(s.items[ip] - banPeriod))
    && (forall ip :: ip !in s.items && LastAdd(es, n, ip).Some? ==> LastAdd(es, n, ip).value + banPeriod < clock)
  }

  lemma EventKeepsAgreement(s: Bans, banPeriod: int, es: seq<BanEvent>, n: nat, clock: Time)
    requires n < |es| && es[n].now <= clock && BansAgree(s, banPeriod, es, n, es[n].now)
    ensures BansAgree(NextBans(s, banPeriod, es[n]), banPeriod, es, n + 1, clock)
  {
  }

  lemma {:induction false} BansFollowLastAdd(banPeriod: int, es: seq<BanEvent>, states: seq<Bans>, n: nat, clock: Time)
    requires IsBanRun(banPeriod, es, states) && n <= |es|
    requires n > 0 ==> es[n - 1].now <= clock
    ensures BansAgree(states[n], banPeriod, es, n, clock)
  {
    if n > 0 {
      BansFollowLastAdd(banPeriod, es, states, n - 1, es[n - 1].now);
      EventKeepsAgreement(states[n - 1], banPeriod, es, n - 1, clock);
    }
  }

  /** In every run `Is` answers exactly like the append-only table: the address was added, and its last ban
      has not ended before now. */
  lemma IsAnswersLikeAppendOnlyTable(banPeriod: int, es: seq<BanEvent>, states: seq<Bans>, i: nat)
    requires IsBanRun(banPeriod, es, states) && i < |es| && es[i].Is?
    ensures var last := LastAdd(es, i, es[i].ip);
      IsStep(states[i], es[i].ip, es[i].now, es[i].since).1 <==> last.Some? && last.value + banPeriod >= es[i].now
  {
    BansFollowLastAdd(banPeriod, es, states, i, es[i].now);
  }
}
