/** Starting and stopping the cache's reaper goroutine (`cache/memcachettl/memCacheTTL.go`).

    The `done` channel tells one reaper to leave.  Any number of `Start` and `Stop`
    calls interleave; `reaperMu` makes only their critical sections atomic, so `Stop`
    closes the channel after it has released the lock. */
module ReaperLifecycle {
  import opened Prelude

  type Channel = nat
  type CallId = nat

  /** The fields guarded by `reaperMu`. */
  datatype Gate = Gate(done: Option<Channel>, stopped: bool)

  /** `Start`'s section: with no reaper of its own running it installs the new channel `newest`. */
  function StartSection(g: Gate, newest: Channel): (Gate, bool) {
    if g.done.Some? then (g, false) else (Gate(Some(newest), false), true)
  }

  /** How `Stop` goes on after its section. */
  datatype StopOutcome = AlreadyStopped | MustClose(done: Channel) | NothingToClose

  function StopSection(g: Gate): (Gate, StopOutcome) {
    if g.stopped then (g, AlreadyStopped)
    else (Gate(None, true), if g.done.Some? then MustClose(g.done.value) else NothingToClose)
  }

  class ReaperGate {
    var done: Option<Channel>
    var stopped: bool

    function State(): Gate
      reads this
    {
      Gate(done, stopped)
    }

    constructor ()
      ensures State() == Gate(None, false)
    {
      done, stopped := None, false;
    }

    method StartLocked(newest: Channel) returns (spawn: bool)
      modifies this
      ensures (State(), spawn) == StartSection(old(State()), newest)
    {
      if done != None {
        return false;
      }
      done := Some(newest);
      stopped := false;
      return true;
    }

    method StopLocked() returns (outcome: StopOutcome)
      modifies this
      ensures (State(), outcome) == StopSection(old(State()))
    {
      if stopped {
        return AlreadyStopped;
      }
      stopped := true;
      var held := done;
      done := None;
      return if held.Some? then MustClose(held.value) else NothingToClose;
    }
  }

  // ----- runs -----

  /** `closing` holds the `Stop` calls about to close a channel, `joining` those in `wg.Wait`,
      `running` the channels of the live reapers, `wg` the wait group's counter. */
  datatype System = System(
    gate: Gate,
    nextChannel: Channel,
    closed: set<Channel>,
    closing: map<CallId, Channel>,
    joining: set<CallId>,
    running: set<Channel>,
    wg: int)

  datatype Event =
    | StartCall
    | StopCall(id: CallId)
    | CloseChannel(id: CallId)
    | ReaperLeaves(done: Channel)
    | StopReturns(id: CallId)

  const INITIAL := System(Gate(None, false), 0, {}, map[], {}, {}, 0)

  predicate Enabled(s: System, e: Event) {
    match e
    case StartCall => true
    case StopCall(id) => id !in s.closing && id !in s.joining
    case CloseChannel(id) => id in s.closing
    case ReaperLeaves(c) => c in s.running && c in s.closed
    case StopReturns(id) => id in s.joining && s.wg == 0
  }

  function Next(s: System, e: Event): System
    requires Enabled(s, e)
  {
    match e
    case StartCall =>
      var (g, spawn) := StartSection(s.gate, s.nextChannel);
      if spawn then
        s.(gate := g, nextChannel := s.nextChannel + 1, running := s.running + {s.nextChannel}, wg := s.wg + 1)
      else s.(gate := g)
    case StopCall(id) =>
      var (g, outcome) := StopSection(s.gate);
      (match outcome
       case AlreadyStopped => s.(gate := g)
       case NothingToClose => s.(gate := g, joining := s.joining + {id})
       case MustClose(c) => s.(gate := g, closing := s.closing[id := c]))
    case CloseChannel(id) =>
      s.(closed := s.closed + {s.closing[id]}, closing := s.closing - {id}, joining := s.joining + {id})
    case ReaperLeaves(c) => s.(running := s.running - {c}, wg := s.wg - 1)
    case StopReturns(id) => s.(joining := s.joining - {id})
  }

  ghost predicate IsRun(es: seq<Event>, states: seq<System>) {
    && |states| == |es| + 1
    && states[0] == INITIAL
    && forall i :: 0 <= i < |es| ==> Enabled(states[i], es[i]) && states[i + 1] == Next(states[i], es[i])
  }

  /** Where channel `c` can be: installed, held by a `Stop` that will close it, or closed. */
  ghost predicate Installed(s: System, c: Channel) { s.gate.done == Some(c) }

  ghost predicate Held(s: System, c: Channel) { exists id :: id in s.closing && s.closing[id] == c }

  ghost predicate Closed(s: System, c: Channel) { c in s.closed }

  ghost predicate InOnePlace(s: System, c: Channel) {
    && (Installed(s, c) || Held(s, c) || Closed(s, c))
    && !(Installed(s, c) && Held(s, c)) && !(Installed(s, c) && Closed(s, c)) && !(Held(s, c) && Closed(s, c))
  }

  /** No two `Stop` calls hold the same channel. */
  ghost predicate HeldByOneCall(s: System) {
    forall i, j :: i in s.closing && j in s.closing && i != j ==> s.closing[i] != s.closing[j]
  }

  ghost predicate Sound(s: System) {
    && (s.gate.stopped ==> s.gate.done == None)
    && (forall c: Channel :: c < s.nextChannel ==> InOnePlace(s, c))
    && HeldByOneCall(s) && Tracked(s)
  }

  /** Only channels made so far occur, and those not yet closed still have their reaper. */
  ghost predicate Tracked(s: System) {
    && (forall c: Channel :: c in s.running ==> c < s.nextChannel)
    && (forall c: Channel :: c in s.closed ==> c < s.nextChannel)
    && (forall i :: i in s.closing ==> s.closing[i] in s.running)
    && (s.gate.done.Some? ==> s.gate.done.value in s.running)
    && s.wg == |s.running|
  }

  lemma StepKeepsPlaces(s: System, e: Event, c: Channel)
    requires Sound(s) && Enabled(s, e) && c < Next(s, e).nextChannel
    ensures InOnePlace(Next(s, e), c)
  {
    var s' := Next(s, e);
    assert c < s.nextChannel ==> InOnePlace(s, c);
    match e
    case StopCall(id) =>
      forall k | k in s.closing ensures k in s'.closing && s'.closing[k] == s.closing[k] {}
      if Installed(s, c) && !s.gate.stopped {
        assert s'.closing[id] == c;
      }
    case CloseChannel(id) =>
      if Held(s, c) {
        var k :| k in s.closing && s.closing[k] == c;
        if k != id { assert s'.closing[k] == c; }
      }
    case _ =>
  }

  lemma StepKeepsHeldByOneCall(s: System, e: Event)
    requires Sound(s) && Enabled(s, e)
    ensures HeldByOneCall(Next(s, e))
  {
    var held := Next(s, e).closing;
    if e.StopCall? && !s.gate.stopped && s.gate.done.Some? {
      var c := s.gate.done.value;
      assert InOnePlace(s, c) && Installed(s, c) && !Held(s, c);
      assert held == s.closing[e.id := c];
    } else {
      assert forall i :: i in held ==> i in s.closing && held[i] == s.closing[i];
    }
    forall i, j | i in held && j in held && i != j ensures held[i] != held[j] {
      assert i in s.closing && j in s.closing ==> s.closing[i] != s.closing[j];
    }
  }

  lemma StepKeepsTracked(s: System, e: Event)
    requires Sound(s) && Enabled(s, e)
    ensures Tracked(Next(s, e))
  {
    match e
    case StopCall(_) => assert s.gate.done.Some? ==> Installed(s, s.gate.done.value);
    case ReaperLeaves(c) => assert InOnePlace(s, c);
    case CloseChannel(id) => assert Held(s, s.closing[id]);
    case _ =>
  }

  lemma StepKeepsSound(s: System, e: Event)
    requires Sound(s) && Enabled(s, e)
    ensures Sound(Next(s, e))
  {
    var s' := Next(s, e);
    forall c: Channel | c < s'.nextChannel ensures InOnePlace(s', c) {
      StepKeepsPlaces(s, e, c);
    }
    StepKeepsHeldByOneCall(s, e);
    StepKeepsTracked(s, e);
  }

  lemma {:induction false} SoundInEveryRun(es: seq<Event>, states: seq<System>, n: nat)
    requires IsRun(es, states) && n <= |es|
    ensures Sound(states[n])
  {
    if n > 0 {
      SoundInEveryRun(es, states, n - 1);
      StepKeepsSound(states[n - 1], es[n - 1]);
    }
  }

  /** No `done` channel is closed twice. */
  lemma NeverClosedTwice(es: seq<Event>, states: seq<System>, i: nat)
    requires IsRun(es, states) && i < |es| && es[i].CloseChannel?
    ensures states[i].closing[es[i].id] !in states[i].closed
  {
    SoundInEveryRun(es, states, i);
    var c := states[i].closing[es[i].id];
    assert InOnePlace(states[i], c) && Held(states[i], c);
  }

  /** A running reaper's channel is the current one, or exactly one `Stop` is about to close it, or
      it is closed; and `stopped` leaves no current channel. */
  lemma EveryReaperIsAccountedFor(es: seq<Event>, states: seq<System>, n: nat)
    requires IsRun(es, states) && n <= |es|
    ensures var s := states[n];
      && (s.gate.stopped ==> s.gate.done == None)
      && (forall c :: c in s.running ==> InOnePlace(s, c))
      && HeldByOneCall(s)
  {
    SoundInEveryRun(es, states, n);
  }

  /** When a `Stop` that waited returns, every reaper is gone and every channel ever made is closed. */
  lemma StopReturnsWithoutReapers(es: seq<Event>, states: seq<System>, i: nat)
    requires IsRun(es, states) && i < |es| && es[i].StopReturns?
    ensures states[i].running == {} && states[i].gate.done == None
    ensures forall c: Channel :: c < states[i].nextChannel ==> c in states[i].closed
  {
    SoundInEveryRun(es, states, i);
    var s := states[i];
    forall c: Channel | c < s.nextChannel ensures c in s.closed {
      assert InOnePlace(s, c);
    }
  }

  // ----- who starts and who waits -----

  /** The last call of `Start` or `Stop` before event `n`. */
  function LastCall(es: seq<Event>, n: nat): (last: Option<Event>)
    requires n <= |es|
    ensures last.Some? ==> last.value.StartCall? || last.value.StopCall?
  {
    if n == 0 then None
    else if es[n - 1].StartCall? || es[n - 1].StopCall? then Some(es[n - 1])
    else LastCall(es, n - 1)
  }

  /** The gate tells which call came last: after `Start` a channel is installed, after `Stop` none and `stopped` set. */
  lemma {:induction false} GateFollowsLastCall(es: seq<Event>, states: seq<System>, n: nat)
    requires IsRun(es, states) && n <= |es|
    ensures var gate, last := states[n].gate, LastCall(es, n);
      && (gate.done.Some? <==> last.Some? && last.value.StartCall?)
      && (gate.stopped <==> last.Some? && last.value.StopCall?)
  {
    if n > 0 {
      GateFollowsLastCall(es, states, n - 1);
    }
  }

  /** `Start` spawns a reaper exactly if the last call was not a `Start`. */
  lemma StartSpawnsUnlessStarted(es: seq<Event>, states: seq<System>, i: nat)
    requires IsRun(es, states) && i < |es| && es[i].StartCall?
    ensures var s, t, last := states[i], states[i + 1], LastCall(es, i);
      if last.Some? && last.value.StartCall? then t == s
      else t.running == s.running + {s.nextChannel} && s.nextChannel !in s.running && t.wg == s.wg + 1
           && t.gate.done == Some(s.nextChannel)
  {
    SoundInEveryRun(es, states, i);
    GateFollowsLastCall(es, states, i);
  }

  /** `Stop` returns at once exactly if the last call was a `Stop`.  Otherwise it waits for the reapers, and if there is
      a channel, it is this call that closes it first. */
  lemma StopWaitsUnlessStopped(es: seq<Event>, states: seq<System>, i: nat)
    requires IsRun(es, states) && i < |es| && es[i].StopCall?
    ensures var s, t, last, id := states[i], states[i + 1], LastCall(es, i), es[i].id;
      match last
      case None => t.joining == s.joining + {id} && t.closing == s.closing
      case Some(StopCall(_)) => t == s
      case Some(_) => s.gate.done.Some? && t.closing == s.closing[id := s.gate.done.value] && t.joining == s.joining
  {
    GateFollowsLastCall(es, states, i);
  }

  /** A call that has closed its channel waits, and one that has waited is done; the channel is closed, and the reaper
      told so leaves for good. */
  lemma StopGoesOn(es: seq<Event>, states: seq<System>, i: nat)
    requires IsRun(es, states) && i < |es|
    ensures var s, t, e := states[i], states[i + 1], es[i];
      && (e.CloseChannel? ==> e.id !in t.closing && e.id in t.joining && t.closed == s.closed + {s.closing[e.id]})
      && (e.StopReturns? ==> e.id !in t.joining)
      && (e.ReaperLeaves? ==> t.running == s.running - {e.done} && t.wg == |t.running|)
  {
    SoundInEveryRun(es, states, i);
    SoundInEveryRun(es, states, i + 1);
  }

  /** A call that is closing goes on to wait, and nothing but the last reaper's end keeps it waiting: every reaper
      whose channel is closed can leave. */
  lemma NobodyIsStuck(es: seq<Event>, states: seq<System>, n: nat)
    requires IsRun(es, states) && n <= |es|
    ensures forall id :: id in states[n].closing ==> Enabled(states[n], CloseChannel(id))
    ensures forall id :: id in states[n].joining && states[n].running == {} ==> Enabled(states[n], StopReturns(id))
    ensures forall c :: c in states[n].running && c in states[n].closed ==> Enabled(states[n], ReaperLeaves(c))
  {
    SoundInEveryRun(es, states, n);
  }

  // ----- reuse of the wait group -----

  /** The call `wg.Add(1)` of `Start` raises the counter from zero while a `Stop` has not returned from `wg.Wait`.
      `sync.WaitGroup` forbids that and may panic; here that `Stop` just waits on. */
  predicate ReusesTooEarly(s: System, e: Event) {
    e.StartCall? && StartSection(s.gate, s.nextChannel).1 && s.wg == 0 && s.joining != {}
  }

  /** It happens exactly when `Start` is called after the last reaper has left and before every `Stop` that waited
      for one has returned. */
  lemma ReusedTooEarlyIffStopStillWaits(es: seq<Event>, states: seq<System>, i: nat)
    requires IsRun(es, states) && i < |es| && es[i].StartCall?
    ensures ReusesTooEarly(states[i], es[i]) <==> states[i].running == {} && states[i].joining != {}
  {
    SoundInEveryRun(es, states, i);
  }

  /** Such a run: the `Stop` may return, but the next `Start` comes first. */
  lemma StartOvertakesStop() returns (es: seq<Event>, states: seq<System>)
    ensures es == [StartCall, StopCall(7), CloseChannel(7), ReaperLeaves(0), StartCall] && IsRun(es, states)
    ensures Enabled(states[4], StopReturns(7)) && ReusesTooEarly(states[4], es[4])
  {
    es := [StartCall, StopCall(7), CloseChannel(7), ReaperLeaves(0), StartCall];
    var s1 := Next(INITIAL, es[0]);
    var s2 := Next(s1, es[1]);
    var s3 := Next(s2, es[2]);
    var s4 := Next(s3, es[3]);
    states := [INITIAL, s1, s2, s3, s4, Next(s4, es[4])];
  }
}
