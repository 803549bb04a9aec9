/** Restarting the PostgreSQL pool (`db/postgres/postgreSql.go`): `DoRestart` closes the
    pool in one critical section, sleeps without the lock for a growing, jittered delay,
    and opens a new pool in a second section, while `Start` and `Stop` may be called. */
module PostgresRestart {
  import opened Prelude
  import opened Bits

  type Pool = nat
  type Duration = int  // nanoseconds

  const RESTART_BASE_DELAY := 5_000_000_000
  const RESTART_MAX_DELAY := 300_000_000_000

  /** A `sql.DB` opened on a pool; each opening gives a new `id`. */
  datatype DB = DB(pool: Pool, id: nat)

  /** The fields guarded by `mu`. */
  datatype Shared = Shared(dbpool: Option<Pool>, stdlibDB: Option<DB>, restarting: bool, restartBackoff: Duration)

  /** How `doStart` fares: the configuration may not parse, the pool may not open, or it opens as `pool`
      and the checks that follow pass or fail with the pool left installed. */
  datatype StartOutcome = BadConfig | NoPool | PoolOpened(pool: Pool, checksPass: bool)

  predicate Succeeds(o: StartOutcome) {
    o.PoolOpened? && o.checksPass
  }

  /** `doStart`; `id` is that of the wrapper it may open. */
  function StartPool(s: Shared, o: StartOutcome, id: nat): Shared {
    match o
    case BadConfig => s
    case NoPool => s.(dbpool := None)
    case PoolOpened(pool, _) => s.(dbpool := Some(pool), stdlibDB := Some(DB(pool, id)))
  }

  function StopPool(s: Shared): Shared {
    s.(dbpool := None, stdlibDB := None)
  }

  /** `GetDB` with its answer; it opens a wrapper if it finds a pool without one. */
  function GetDBSection(s: Shared, id: nat): (Shared, Option<DB>) {
    if s.dbpool == None then (s, None)
    else
      var t := if s.stdlibDB == None then s.(stdlibDB := Some(DB(s.dbpool.value, id))) else s;
      (t, t.stdlibDB)
  }

  function NextBackoff(b: Duration): Duration {
    if b == 0 then RESTART_BASE_DELAY
    else if 2 * b > RESTART_MAX_DELAY then RESTART_MAX_DELAY
    else 2 * b
  }

  /** `DoRestart` up to the sleep, unless a restart is in progress already. */
  function BeginRestart(s: Shared): (Shared, bool) {
    if s.restarting then (s, false)
    else (StopPool(s).(restarting := true, restartBackoff := NextBackoff(s.restartBackoff)), true)
  }

  /** `DoRestart` after the sleep. */
  function EndRestart(s: Shared, o: StartOutcome, id: nat): Shared {
    StartPool(s, o, id).(restarting := false, restartBackoff := if Succeeds(o) then 0 else s.restartBackoff)
  }

  /** `jitterDuration`, with `random` the number drawn from `[0, 2 * (d / 5)]`. */
  function Jittered(d: Duration, random: int): Duration {
    var jitter := d / 5;
    if jitter == 0 then d else d - jitter + random
  }

  predicate Drawable(d: Duration, random: int) {
    0 <= random <= 2 * (d / 5)
  }

  /** The delay stays within a fifth of the backoff on either side, and every such delay can be drawn. */
  lemma JitterStaysWithinAFifth(d: Duration, delay: Duration)
    requires d >= 0
    ensures d - d / 5 <= delay <= d + d / 5 <==> exists random :: Drawable(d, random) && Jittered(d, random) == delay
  {
    if d - d / 5 <= delay <= d + d / 5 {
      var random := delay - (d - d / 5);
      assert Drawable(d, random) && Jittered(d, random) == delay;
    }
  }

  class PostgreSQL {
    var dbpool: Option<Pool>
    var stdlibDB: Option<DB>
    var restarting: bool
    var restartBackoff: Duration

    function State(): Shared
      reads this
    {
      Shared(dbpool, stdlibDB, restarting, restartBackoff)
    }

    constructor ()
      ensures State() == Shared(None, None, false, 0)
    {
      dbpool, stdlibDB, restarting, restartBackoff := None, None, false, 0;
    }

    method DoStart(o: StartOutcome, id: nat) returns (ok: bool)
      modifies this`dbpool, this`stdlibDB
      ensures State() == StartPool(old(State()), o, id) && ok == Succeeds(o)
    {
      if o == BadConfig {
        return false;
      }
      dbpool := if o.PoolOpened? then Some(o.pool) else None;
      if o == NoPool {
        return false;
      }
      stdlibDB := Some(DB(o.pool, id));
      return o.checksPass;
    }

    method DoStop() returns (closed: Option<Pool>)
      modifies this`dbpool, this`stdlibDB
      ensures State() == StopPool(old(State())) && closed == old(dbpool)
    {
      closed := dbpool;
      if dbpool.Some? {
        dbpool := None;
      }
      stdlibDB := None;
    }

    method Start(o: StartOutcome, id: nat) returns (ok: bool)
      modifies this
      ensures State() == if old(restarting) then old(State()) else StartPool(old(State()), o, id)
      ensures ok == (!old(restarting) && Succeeds(o))
    {
      if restarting {
        return false;
      }
      ok := DoStart(o, id);
    }

    method GetDB(id: nat) returns (db: Option<DB>)
      modifies this`stdlibDB
      ensures (State(), db) == GetDBSection(old(State()), id)
    {
      if dbpool == None {
        return None;
      }
      if stdlibDB == None {
        stdlibDB := Some(DB(dbpool.value, id));
      }
      return stdlibDB;
    }

    /** The first section of `DoRestart`; on success returns the delay to sleep and the pool it closed. */
    method BeginRestartLocked(random: int) returns (begun: bool, delay: Duration, closed: Option<Pool>)
      modifies this
      ensures (State(), begun) == BeginRestart(old(State()))
      ensures begun ==> delay == Jittered(restartBackoff, random) && closed == old(dbpool)
    {
      if restarting {
        return false, 0, None;
      }
      restarting := true;
      if restartBackoff == 0 {
        restartBackoff := RESTART_BASE_DELAY;
      } else {
        restartBackoff := restartBackoff * 2;
        if restartBackoff > RESTART_MAX_DELAY {
          restartBackoff := RESTART_MAX_DELAY;
        }
      }
      delay := Jittered(restartBackoff, random);
      closed := DoStop();
      begun := true;
    }

    method EndRestartLocked(o: StartOutcome, id: nat) returns (ok: bool)
      modifies this
      ensures State() == EndRestart(old(State()), o, id) && ok == Succeeds(o)
    {
      ok := DoStart(o, id);
      if ok {
        restartBackoff := 0;
      }
      restarting := false;
    }
  }

  // ----- runs -----

  type CallId = nat

  /** `asleep` holds the `DoRestart` calls between their sections, with their delays.  The rest is history:
      the pools opened and closed, those whose last reference `doStart` overwrote, and how many wrappers
      were opened. */
  datatype System = System(
    shared: Shared,
    asleep: map<CallId, Duration>,
    made: set<Pool>,
    closed: set<Pool>,
    lost: set<Pool>,
    wrappers: nat)

  const INITIAL := System(Shared(None, None, false, 0), map[], {}, {}, {}, 0)

  datatype Event =
    | StartCall(o: StartOutcome)
    | StopCall
    | GetDBCall
    | RestartBegins(call: CallId, random: int)
    | RestartEnds(call: CallId, o: StartOutcome)

  predicate FreshPool(s: System, o: StartOutcome) {
    o.PoolOpened? ==> o.pool !in s.made
  }

  predicate Enabled(s: System, e: Event) {
    match e
    case StartCall(o) => FreshPool(s, o)
    case StopCall => true
    case GetDBCall => true
    case RestartBegins(call, random) => call !in s.asleep && Drawable(NextBackoff(s.shared.restartBackoff), random)
    case RestartEnds(call, o) => call in s.asleep && FreshPool(s, o)
  }

  /** The pools after `doStart` replaced `shared` by `t`. */
  function Started(s: System, t: Shared, o: StartOutcome): System {
    s.(shared := t,
       made := s.made + if o.PoolOpened? then {o.pool} else {},
       wrappers := s.wrappers + if o.PoolOpened? then 1 else 0,
       lost := s.lost + if o.BadConfig? then {} else SetOf(s.shared.dbpool))
  }

  function Next(s: System, e: Event): System
    requires Enabled(s, e)
  {
    match e
    case StartCall(o) => if s.shared.restarting then s else Started(s, StartPool(s.shared, o, s.wrappers), o)
    case StopCall => s.(shared := StopPool(s.shared), closed := s.closed + SetOf(s.shared.dbpool))
    case GetDBCall =>
      var t := GetDBSection(s.shared, s.wrappers).0;
      s.(shared := t, wrappers := if t == s.shared then s.wrappers else s.wrappers + 1)
    case RestartBegins(call, random) =>
      var (t, begun) := BeginRestart(s.shared);
      if begun then
        s.(shared := t, closed := s.closed + SetOf(s.shared.dbpool),
           asleep := s.asleep[call := Jittered(t.restartBackoff, random)])
      else s
    case RestartEnds(call, o) => Started(s, EndRestart(s.shared, o, s.wrappers), o).(asleep := s.asleep - {call})
  }

  ghost predicate IsRun(es: seq<Event>, states: seq<System>) {
    && |states| == |es| + 1 && states[0] == INITIAL
    && forall i :: 0 <= i < |es| ==> Enabled(states[i], es[i]) && states[i + 1] == Next(states[i], es[i])
  }

  ghost predicate Sound(s: System) {
    && (s.shared.restarting <==> s.asleep != map[])
    && (forall c, d :: c in s.asleep && d in s.asleep ==> c == d)
    && (s.shared.restarting ==> s.shared.dbpool == None)
    && (s.shared.dbpool.Some? ==> s.shared.stdlibDB.Some? && s.shared.stdlibDB.value.pool == s.shared.dbpool.value)
  }

  /** Every opened pool is installed, closed or lost, and only one of these. */
  ghost predicate InOnePlace(s: System, p: Pool) {
    && (p in s.made <==> s.shared.dbpool == Some(p) || p in s.closed || p in s.lost)
    && !(p in s.closed && p in s.lost)
    && (s.shared.dbpool == Some(p) ==> p !in s.closed && p !in s.lost)
  }

  lemma KeepsSound(s: System, e: Event)
    requires Enabled(s, e) && Sound(s)
    ensures Sound(Next(s, e))
  {
  }

  lemma {:induction false} SoundInEveryRun(es: seq<Event>, states: seq<System>, n: nat)
    requires IsRun(es, states) && n <= |es|
    ensures Sound(states[n]) && forall p :: InOnePlace(states[n], p)
  {
    if n > 0 {
      SoundInEveryRun(es, states, n - 1);
      KeepsSound(states[n - 1], es[n - 1]);
      forall p ensures InOnePlace(states[n], p) {
        assert InOnePlace(states[n - 1], p);
      }
    }
  }

  /** In every interleaving at most one restart is in flight, its flag is raised exactly then, and its
      `doStart` finds no live pool. */
  lemma RestartFindsNoPool(es: seq<Event>, states: seq<System>, i: nat)
    requires IsRun(es, states) && i < |es| && es[i].RestartEnds?
    ensures states[i].asleep.Keys == {es[i].call} && states[i].shared.restarting
    ensures states[i].shared.dbpool == None && states[i + 1].lost == states[i].lost
  {
    SoundInEveryRun(es, states, i);
  }

  /** A pool is lost exactly by a `Start` that is let in while a pool is installed and whose configuration
      parses; then it is that pool. */
  lemma PoolIsLostOnlyBySecondStart(es: seq<Event>, states: seq<System>, i: nat)
    requires IsRun(es, states) && i < |es|
    ensures var s, t, e := states[i], states[i + 1], es[i];
      && (t.lost != s.lost <==> e.StartCall? && !s.shared.restarting && s.shared.dbpool.Some? && !e.o.BadConfig?)
      && (t.lost != s.lost ==> t.lost == s.lost + {s.shared.dbpool.value})
  {
    SoundInEveryRun(es, states, i);
    if states[i].shared.dbpool.Some? {
      assert InOnePlace(states[i], states[i].shared.dbpool.value);
    }
  }

  /** Two successful calls of `Start` in a row lose the first pool. */
  lemma SecondStartLosesPool() returns (es: seq<Event>, states: seq<System>)
    ensures es == [StartCall(PoolOpened(0, true)), StartCall(PoolOpened(1, true))] && IsRun(es, states)
    ensures states[2].lost == {0} && states[2].shared.dbpool == Some(1)
  {
    var first, second := StartCall(PoolOpened(0, true)), StartCall(PoolOpened(1, true));
    var s := Next(INITIAL, first);
    es, states := [first, second], [INITIAL, s, Next(s, second)];
  }

  /** Without such a `Start` every pool ever opened is either the installed one or closed. */
  lemma {:induction false} NothingIsLost(es: seq<Event>, states: seq<System>, n: nat)
    requires IsRun(es, states) && n <= |es|
    requires forall i :: 0 <= i < n && es[i].StartCall? && states[i].shared.dbpool.Some? ==> es[i].o.BadConfig?
    ensures states[n].lost == {} && states[n].made == states[n].closed + SetOf(states[n].shared.dbpool)
  {
    if n > 0 {
      NothingIsLost(es, states, n - 1);
      PoolIsLostOnlyBySecondStart(es, states, n - 1);
    }
    SoundInEveryRun(es, states, n);
    forall p ensures p in states[n].made <==> p in states[n].closed + SetOf(states[n].shared.dbpool) {
      assert InOnePlace(states[n], p);
    }
  }

  // ----- which calls are let in -----

  /** `Start` is refused exactly while a restart sleeps; otherwise it installs the pool it opened, whether or not the
      checks after that pass. */
  lemma StartIsLetInUnlessRestarting(es: seq<Event>, states: seq<System>, i: nat)
    requires IsRun(es, states) && i < |es| && es[i].StartCall?
    ensures var s, t, o := states[i], states[i + 1], es[i].o;
      if s.asleep != map[] then t == s
      else if o.PoolOpened? then t.shared.dbpool == Some(o.pool) && t.shared.stdlibDB == Some(DB(o.pool, s.wrappers))
      else t.shared.dbpool == if o.BadConfig? then s.shared.dbpool else None
  {
    SoundInEveryRun(es, states, i);
  }

  /** `DoRestart` is let in exactly if no other restart sleeps, and then leaves no pool installed. */
  lemma RestartIsLetInUnlessRestarting(es: seq<Event>, states: seq<System>, i: nat)
    requires IsRun(es, states) && i < |es| && es[i].RestartBegins?
    ensures var s, t := states[i], states[i + 1];
      if s.asleep != map[] then t == s
      else t.asleep.Keys == {es[i].call} && t.shared.dbpool == None && t.closed == s.closed + SetOf(s.shared.dbpool)
  {
    SoundInEveryRun(es, states, i);
  }

  /** After its sleep it installs the pool it opens, and lets the next restart in. */
  lemma RestartInstallsItsPool(es: seq<Event>, states: seq<System>, i: nat)
    requires IsRun(es, states) && i < |es| && es[i].RestartEnds?
    ensures var o, t := es[i].o, states[i + 1];
      t.asleep == map[] && t.shared.dbpool == if o.PoolOpened? then Some(o.pool) else None
  {
    SoundInEveryRun(es, states, i);
    RestartFindsNoPool(es, states, i);
    assert states[i + 1].asleep.Keys == {};
  }

  /** As long as no `Start` is let in over a pool, there is a wrapper exactly while there is a pool. */
  lemma {:induction false} WrapperIffPool(es: seq<Event>, states: seq<System>, n: nat)
    requires IsRun(es, states) && n <= |es|
    requires forall i :: 0 <= i < n && es[i].StartCall? && states[i].shared.dbpool.Some? ==> es[i].o.BadConfig?
    ensures states[n].shared.stdlibDB.Some? <==> states[n].shared.dbpool.Some?
  {
    if n > 0 {
      WrapperIffPool(es, states, n - 1);
      SoundInEveryRun(es, states, n - 1);
    }
  }

  // ----- wrappers -----

  function Answer(s: System): Option<DB> {
    GetDBSection(s.shared, s.wrappers).1
  }

  /** `GetDB` answers a wrapper of the installed pool if there is one, and never has to open it. */
  lemma GetDBOnlyReads(es: seq<Event>, states: seq<System>, i: nat)
    requires IsRun(es, states) && i < |es| && es[i].GetDBCall?
    ensures states[i + 1] == states[i]
    ensures states[i].shared.dbpool == match Answer(states[i]) case None => None case Some(db) => Some(db.pool)
  {
    SoundInEveryRun(es, states, i);
  }

  /** As long as a pool stays installed, so does its wrapper; a pool taken away never comes back. */
  lemma {:induction false} WrapperStays(es: seq<Event>, states: seq<System>, i: nat, j: nat, pool: Pool)
    requires IsRun(es, states) && i <= j <= |es| && states[i].shared.dbpool == Some(pool)
    ensures pool in states[j].made
    ensures states[j].shared.dbpool == Some(pool) ==> states[j].shared.stdlibDB == states[i].shared.stdlibDB
    decreases j
  {
    if i < j {
      WrapperStays(es, states, i, j - 1, pool);
      SoundInEveryRun(es, states, j - 1);
    } else {
      SoundInEveryRun(es, states, i);
      assert InOnePlace(states[i], pool);
    }
  }

  /** All calls of `GetDB` that find the same pool get the same wrapper, whatever happens in between. */
  lemma OneWrapperPerPool(es: seq<Event>, states: seq<System>, i: nat, j: nat)
    requires IsRun(es, states) && i <= j < |es| && es[i].GetDBCall? && es[j].GetDBCall?
    requires states[i].shared.dbpool.Some? && states[i].shared.dbpool == states[j].shared.dbpool
    ensures Answer(states[i]) == Answer(states[j])
  {
    WrapperStays(es, states, i, j, states[i].shared.dbpool.value);
    SoundInEveryRun(es, states, i);
  }

  // ----- stopping during a restart -----

  /** `Stop` does not cancel a sleeping restart: the pool comes back. */
  lemma StopDoesNotCancelRestart() returns (es: seq<Event>, states: seq<System>)
    ensures es == [StartCall(PoolOpened(0, true)), RestartBegins(7, 0), StopCall, RestartEnds(7, PoolOpened(1, true))]
    ensures IsRun(es, states) && states[4].shared.dbpool == Some(1)
  {
    es := [StartCall(PoolOpened(0, true)), RestartBegins(7, 0), StopCall, RestartEnds(7, PoolOpened(1, true))];
    var s1 := Next(INITIAL, es[0]);
    var s2 := Next(s1, es[1]);
    var s3 := Next(s2, es[2]);
    states := [INITIAL, s1, s2, s3, Next(s3, es[3])];
  }

  /** Whether event `k`, after `i` and before `n`, ends a restart with an opened pool which no later `Stop`
      takes away again. */
  ghost predicate BringsPoolBack(es: seq<Event>, i: nat, k: nat, n: nat)
    requires n <= |es|
  {
    && i < k < n && es[k].RestartEnds? && es[k].o.PoolOpened?
    && forall j :: k < j < n ==> !es[j].StopCall?
  }

  /** After a `Stop`, and until the next `Start` or `DoRestart`, a pool is installed exactly if a restart that was
      asleep has brought one back. */
  lemma {:induction false} PoolComesBackOnlyByRestart(es: seq<Event>, states: seq<System>, i: nat, n: nat)
    requires IsRun(es, states) && i < n <= |es| && es[i].StopCall?
    requires forall k :: i < k < n ==> !es[k].StartCall? && !es[k].RestartBegins?
    ensures states[n].shared.dbpool.Some? <==> exists k :: BringsPoolBack(es, i, k, n)
    ensures states[n].asleep.Keys <= states[i].asleep.Keys
    ensures states[i].asleep == map[] ==> states[n].shared.dbpool == None
    decreases n
  {
    if i + 1 < n {
      var m := n - 1;
      PoolComesBackOnlyByRestart(es, states, i, m);
      SoundInEveryRun(es, states, m);
      var e := es[m];
      if e.RestartEnds? && e.o.PoolOpened? {
        assert BringsPoolBack(es, i, m, n);
      } else if !e.StopCall? {
        forall k ensures BringsPoolBack(es, i, k, n) <==> BringsPoolBack(es, i, k, m) {}
      }
    }
  }

  // ----- the backoff -----

  /** The restarts begun during the first `n` events since the last one that succeeded. */
  function Attempts(es: seq<Event>, states: seq<System>, n: nat): nat
    requires n <= |es| && |states| == |es| + 1
  {
    if n == 0 then 0
    else match es[n - 1]
      case RestartBegins(_, _) => Attempts(es, states, n - 1) + if states[n - 1].shared.restarting then 0 else 1
      case RestartEnds(_, PoolOpened(_, true)) => 0
      case _ => Attempts(es, states, n - 1)
  }

  /** The backoff of the `k`-th consecutive attempt. */
  function BackoffOf(k: nat): Duration {
    if k == 0 then 0 else Min(RESTART_BASE_DELAY * Pow2(k - 1), RESTART_MAX_DELAY)
  }

  lemma BackoffGrows(k: nat)
    ensures NextBackoff(BackoffOf(k)) == BackoffOf(k + 1)
  {
    if k > 0 {
      assert RESTART_BASE_DELAY * Pow2(k) == 2 * (RESTART_BASE_DELAY * Pow2(k - 1));
    }
  }

  lemma {:induction false} BackoffCountsAttempts(es: seq<Event>, states: seq<System>, n: nat)
    requires IsRun(es, states) && n <= |es|
    ensures states[n].shared.restartBackoff == BackoffOf(Attempts(es, states, n))
  {
    if n > 0 {
      BackoffCountsAttempts(es, states, n - 1);
      BackoffGrows(Attempts(es, states, n - 1));
      BackoffStep(states[n - 1], es[n - 1]);
    }
  }

  /** Only restarts move the backoff. */
  lemma BackoffStep(s: System, e: Event)
    requires Enabled(s, e)
    ensures Next(s, e).shared.restartBackoff ==
            if e.RestartBegins? && !s.shared.restarting then NextBackoff(s.shared.restartBackoff)
            else if e.RestartEnds? && Succeeds(e.o) then 0
            else s.shared.restartBackoff
  {
  }

  /** The `k`-th consecutive restart since the last successful one sleeps for 5s * 2^(k-1), at most 5min, give
      or take a fifth of that. */
  lemma DelayOfConsecutiveAttempt(es: seq<Event>, states: seq<System>, i: nat)
    requires IsRun(es, states) && i < |es| && es[i].RestartBegins? && !states[i].shared.restarting
    ensures var k := Attempts(es, states, i + 1);
      var d := Min(5_000_000_000 * Pow2(k - 1), 300_000_000_000);
      && k >= 1 && states[i + 1].shared.restartBackoff == d
      && es[i].call in states[i + 1].asleep && d - d / 5 <= states[i + 1].asleep[es[i].call] <= d + d / 5
      && 0 <= es[i].random <= 2 * (d / 5) && states[i + 1].asleep[es[i].call] == d - d / 5 + es[i].random
  {
    BackoffCountsAttempts(es, states, i + 1);
    var d := states[i + 1].shared.restartBackoff;
    assert d >= RESTART_BASE_DELAY by {
      BackoffCountsAttempts(es, states, i);
    }
    assert Drawable(d, es[i].random);
    JitterStaysWithinAFifth(d, Jittered(d, es[i].random));
  }
}
