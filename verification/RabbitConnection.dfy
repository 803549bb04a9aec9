/** Connecting to and disconnecting from the broker (`mq/rabbitmq/rabbitMQ.go`).

    One reconnect loop opens connections and channels while any number of `Stop`
    calls take them away.  `mu` makes the sections of the methods below atomic;
    everything between them interleaves, and every network operation may fail. */
module RabbitConnection {
  import opened Prelude

  /** Something the broker library opened, which somebody has to close. */
  datatype Resource = Connection(id: nat) | Channel(id: nat, connection: Resource)

  /** The fields guarded by `mu`. */
  datatype Shared = Shared(mqConnect: Option<Resource>, mqChannel: Option<Resource>, stopped: bool)

  /** `Stop`'s section leaves nothing installed; the caller now holds what was. */
  function TakeAll(s: Shared): Shared {
    Shared(None, None, true)
  }

  function InstallConnection(s: Shared, conn: Resource): (Shared, bool) {
    if s.stopped then (s, false) else (s.(mqConnect := Some(conn)), true)
  }

  function InstallChannel(s: Shared, conn: Resource, ch: Resource): (Shared, bool) {
    if s.mqConnect != Some(conn) then (s, false) else (s.(mqChannel := Some(ch)), true)
  }

  class RabbitMQ {
    var mqConnect: Option<Resource>
    var mqChannel: Option<Resource>
    var stopped: bool

    function State(): Shared
      reads this
    {
      Shared(mqConnect, mqChannel, stopped)
    }

    constructor ()
      ensures State() == Shared(None, None, false)
    {
      mqConnect, mqChannel, stopped := None, None, false;
    }

    method StartLocked()
      modifies this
      ensures State() == old(State()).(stopped := false)
    {
      stopped := false;
    }

    method StopLocked() returns (ch: Option<Resource>, conn: Option<Resource>)
      modifies this
      ensures State() == TakeAll(old(State())) && ch == old(mqChannel) && conn == old(mqConnect)
    {
      stopped := true;
      ch, conn := mqChannel, mqConnect;
      mqChannel, mqConnect := None, None;
    }

    /** Closes what is installed, channel first, and returns what it closed. */
    method CloseConnLocked() returns (closed: set<Resource>)
      modifies this
      ensures State() == old(State()).(mqConnect := None, mqChannel := None)
      ensures closed == SetOf(old(mqChannel)) + SetOf(old(mqConnect))
    {
      closed := {};
      if mqChannel.Some? {
        closed := closed + {mqChannel.value};
        mqChannel := None;
      }
      if mqConnect.Some? {
        closed := closed + {mqConnect.value};
        mqConnect := None;
      }
    }

    /** The section of `dial` after a successful handshake; on `false` the caller must close `conn`. */
    method DialLocked(conn: Resource) returns (installed: bool)
      modifies this
      ensures (State(), installed) == InstallConnection(old(State()), conn)
    {
      if stopped {
        return false;
      }
      mqConnect := Some(conn);
      return true;
    }

    /** The second section of `channel`; on `false` the new channel is closed under the lock. */
    method ChannelLocked(conn: Resource, ch: Resource) returns (installed: bool)
      modifies this
      ensures (State(), installed) == InstallChannel(old(State()), conn, ch)
    {
      if mqConnect != Some(conn) {
        return false;
      }
      mqChannel := Some(ch);
      return true;
    }
  }

  // ----- runs -----

  type CallId = nat

  /** Where the reconnect loop is. */
  datatype Loop =
    | NotRunning
    | AtTop                                         // about to connect
    | Dialing                                       // closed the old connection, dialing
    | Dialed(conn: Resource)                        // holds a new connection
    | Refused(conn: Resource)                       // saw `stopped`, about to close that connection
    | Connected                                     // installed it, about to open a channel
    | Opening(conn: Resource)                       // read the installed connection
    | Opened(conn: Resource, ch: Resource)          // holds a new channel
    | Resting                                       // connect returned: waiting for a close or for the retry delay

  /** What a `Stop` call still has to close. */
  datatype Taken = Taken(ch: Option<Resource>, conn: Option<Resource>)

  datatype System = System(
    shared: Shared,
    made: set<Resource>,
    closed: set<Resource>,
    loop: Loop,
    stops: map<CallId, Taken>)

  const INITIAL := System(Shared(None, None, false), {}, {}, NotRunning, map[])

  datatype Event =
    | Start
    | LoopLeaves
    | CloseOld
    | DialFails
    | DialSucceeds(id: nat)
    | DialSection
    | CloseRefused
    | ReadConnection
    | OpenFails
    | OpenSucceeds(id: nat)
    | ChannelSection
    | Retry
    | StopSection(call: CallId)
    | StopClosesChannel(call: CallId)
    | StopClosesConnection(call: CallId)
    | StopReturns(call: CallId)

  predicate Enabled(s: System, e: Event) {
    match e
    case Start => s.loop == NotRunning
    case LoopLeaves => s.loop == AtTop || s.loop == Resting
    case CloseOld => s.loop == AtTop
    case DialFails => s.loop == Dialing
    case DialSucceeds(id) => s.loop == Dialing && Connection(id) !in s.made
    case DialSection => s.loop.Dialed?
    case CloseRefused => s.loop.Refused?
    case ReadConnection => s.loop == Connected
    case OpenFails => s.loop.Opening?
    case OpenSucceeds(id) => s.loop.Opening? && Channel(id, s.loop.conn) !in s.made
    case ChannelSection => s.loop.Opened?
    case Retry => s.loop == Resting
    case StopSection(call) => call !in s.stops
    case StopClosesChannel(call) => call in s.stops && s.stops[call].ch.Some?
    case StopClosesConnection(call) => call in s.stops && s.stops[call].ch == None && s.stops[call].conn.Some?
    case StopReturns(call) => call in s.stops && s.stops[call] == Taken(None, None)
  }

  function Next(s: System, e: Event): System
    requires Enabled(s, e)
  {
    match e
    case Start => s.(shared := s.shared.(stopped := false), loop := AtTop)
    case LoopLeaves => s.(loop := NotRunning)
    case CloseOld =>
      s.(shared := s.shared.(mqConnect := None, mqChannel := None),
         closed := s.closed + SetOf(s.shared.mqChannel) + SetOf(s.shared.mqConnect), loop := Dialing)
    case DialFails => s.(loop := Resting)
    case DialSucceeds(id) => s.(made := s.made + {Connection(id)}, loop := Dialed(Connection(id)))
    case DialSection =>
      var (shared, installed) := InstallConnection(s.shared, s.loop.conn);
      s.(shared := shared, loop := if installed then Connected else Refused(s.loop.conn))
    case CloseRefused => s.(closed := s.closed + {s.loop.conn}, loop := Resting)
    case ReadConnection => s.(loop := if s.shared.mqConnect.Some? then Opening(s.shared.mqConnect.value) else Resting)
    case OpenFails => s.(loop := Resting)
    case OpenSucceeds(id) =>
      var ch := Channel(id, s.loop.conn);
      s.(made := s.made + {ch}, loop := Opened(s.loop.conn, ch))
    case ChannelSection =>
      var (shared, installed) := InstallChannel(s.shared, s.loop.conn, s.loop.ch);
      s.(shared := shared, closed := if installed then s.closed else s.closed + {s.loop.ch}, loop := Resting)
    case Retry => s.(loop := AtTop)
    case StopSection(call) =>
      s.(shared := TakeAll(s.shared), stops := s.stops[call := Taken(s.shared.mqChannel, s.shared.mqConnect)])
    case StopClosesChannel(call) =>
      s.(closed := s.closed + {s.stops[call].ch.value}, stops := s.stops[call := s.stops[call].(ch := None)])
    case StopClosesConnection(call) =>
      s.(closed := s.closed + {s.stops[call].conn.value}, stops := s.stops[call := s.stops[call].(conn := None)])
    case StopReturns(call) => s.(stops := s.stops - {call})
  }

  ghost predicate IsRun(es: seq<Event>, states: seq<System>) {
    && |states| == |es| + 1 && states[0] == INITIAL
    && forall i :: 0 <= i < |es| ==> Enabled(states[i], es[i]) && states[i + 1] == Next(states[i], es[i])
  }

  // ----- where a resource is -----

  ghost predicate Installed(s: System, r: Resource) {
    s.shared.mqConnect == Some(r) || s.shared.mqChannel == Some(r)
  }

  ghost predicate HeldByLoop(s: System, r: Resource) {
    || ((s.loop.Dialed? || s.loop.Refused?) && s.loop.conn == r)
    || (s.loop.Opened? && s.loop.ch == r)
  }

  ghost predicate HeldByCall(s: System, call: CallId, r: Resource) {
    call in s.stops && (s.stops[call].ch == Some(r) || s.stops[call].conn == Some(r))
  }

  ghost predicate HeldByStop(s: System, r: Resource) {
    exists call :: HeldByCall(s, call, r)
  }

  /** `r` is installed, closed, held by the loop, or held by one `Stop`, and only one of these. */
  ghost predicate InOnePlace(s: System, r: Resource) {
    && (Installed(s, r) || r in s.closed || HeldByLoop(s, r) || HeldByStop(s, r))
    && (Installed(s, r) ==> r !in s.closed && !HeldByLoop(s, r) && !HeldByStop(s, r))
    && (r in s.closed ==> !HeldByLoop(s, r) && !HeldByStop(s, r))
    && (HeldByLoop(s, r) ==> !HeldByStop(s, r))
  }

  ghost predicate Nowhere(s: System, r: Resource) {
    !Installed(s, r) && r !in s.closed && !HeldByLoop(s, r) && !HeldByStop(s, r)
  }

  /** Connections and channels sit in the fields made for them, and the loop installs over nothing. */
  ghost predicate WellPlaced(s: System) {
    && (s.shared.mqConnect.Some? ==> s.shared.mqConnect.value.Connection?)
    && (s.shared.mqChannel.Some? ==>
          var ch := s.shared.mqChannel.value; ch.Channel? && s.shared.mqConnect == Some(ch.connection))
    && (s.shared.stopped ==> s.shared.mqConnect == None)
    && (s.loop.Dialing? || s.loop.Dialed? || s.loop.Refused? ==> s.shared.mqConnect == None)
    && (s.loop.Connected? || s.loop.Opening? || s.loop.Opened? ==> s.shared.mqChannel == None)
    && (s.loop.Dialed? || s.loop.Refused? || s.loop.Opening? ==> s.loop.conn.Connection?)
    && (s.loop.Opened? ==> s.loop.ch.Channel? && s.loop.ch.connection == s.loop.conn)
    && (forall c :: c in s.stops && s.stops[c].ch.Some? ==> s.stops[c].ch.value.Channel?)
    && (forall c :: c in s.stops && s.stops[c].conn.Some? ==> s.stops[c].conn.value.Connection?)
  }

  ghost predicate Conserved(s: System) {
    && (forall r :: r in s.made ==> InOnePlace(s, r))
    && (forall r :: r !in s.made ==> Nowhere(s, r))
    && (forall c, d, r :: HeldByCall(s, c, r) && HeldByCall(s, d, r) ==> c == d)
  }

  lemma KeepsWellPlaced(s: System, e: Event)
    requires Enabled(s, e) && WellPlaced(s)
    ensures WellPlaced(Next(s, e))
  {
  }

  /** What a step does to the calls holding `r`: `Stop`'s section takes over what was installed, its closing
      steps let go of what they close, and nothing else changes. */
  lemma StepOnHeldByCall(s: System, e: Event, r: Resource, c: CallId)
    requires Enabled(s, e) && WellPlaced(s)
    ensures HeldByCall(Next(s, e), c, r) <==>
              if e == StopSection(c) then Installed(s, r)
              else HeldByCall(s, c, r) && !(e == StopClosesChannel(c) && s.stops[c].ch == Some(r))
                   && !(e == StopClosesConnection(c) && s.stops[c].conn == Some(r))
  {
  }

  lemma StepOnHeldByStop(s: System, e: Event, r: Resource)
    requires Enabled(s, e) && WellPlaced(s)
    requires forall c, d :: HeldByCall(s, c, r) && HeldByCall(s, d, r) ==> c == d
    ensures HeldByStop(Next(s, e), r) <==>
              || (e.StopSection? && Installed(s, r))
              || (HeldByStop(s, r) && !(e.StopClosesChannel? && s.stops[e.call].ch == Some(r))
                  && !(e.StopClosesConnection? && s.stops[e.call].conn == Some(r)))
  {
    forall c ensures HeldByCall(s, c, r) ==> HeldByCall(Next(s, e), c, r)
                                             || (e == StopClosesChannel(c) && s.stops[c].ch == Some(r))
                                             || (e == StopClosesConnection(c) && s.stops[c].conn == Some(r))
    {
      StepOnHeldByCall(s, e, r, c);
    }
    forall c ensures HeldByCall(Next(s, e), c, r) ==> HeldByCall(s, c, r) || (e == StopSection(c) && Installed(s, r)) {
      StepOnHeldByCall(s, e, r, c);
    }
    if e.StopSection? {
      StepOnHeldByCall(s, e, r, e.call);
    } else if (e.StopClosesChannel? && s.stops[e.call].ch == Some(r))
              || (e.StopClosesConnection? && s.stops[e.call].conn == Some(r)) {
      StepOnHeldByCall(s, e, r, e.call);
      assert HeldByCall(s, e.call, r) && !HeldByCall(Next(s, e), e.call, r);
    }
  }

  predicate IsStopStep(e: Event) {
    e.StopSection? || e.StopClosesChannel? || e.StopClosesConnection? || e.StopReturns?
  }

  ghost predicate Placed(s: System, r: Resource) {
    if r in s.made then InOnePlace(s, r) else Nowhere(s, r)
  }

  lemma StopStepKeepsPlace(s: System, e: Event, r: Resource)
    requires Enabled(s, e) && WellPlaced(s) && IsStopStep(e) && Placed(s, r)
    requires HeldByStop(Next(s, e), r) <==>
               || (e.StopSection? && Installed(s, r))
               || (HeldByStop(s, r) && !(e.StopClosesChannel? && s.stops[e.call].ch == Some(r))
                   && !(e.StopClosesConnection? && s.stops[e.call].conn == Some(r)))
    ensures Placed(Next(s, e), r)
  {
    if e.StopClosesChannel? || e.StopClosesConnection? {
      assert HeldByCall(s, e.call, r) ==> HeldByStop(s, r);
    }
  }

  lemma LoopStepKeepsPlace(s: System, e: Event, r: Resource)
    requires Enabled(s, e) && WellPlaced(s) && !IsStopStep(e) && Placed(s, r)
    requires HeldByStop(Next(s, e), r) <==> HeldByStop(s, r)
    ensures Placed(Next(s, e), r)
  {
  }

  lemma KeepsPlace(s: System, e: Event, r: Resource)
    requires Enabled(s, e) && WellPlaced(s) && Conserved(s)
    ensures r in Next(s, e).made ==> InOnePlace(Next(s, e), r)
    ensures r !in Next(s, e).made ==> Nowhere(Next(s, e), r)
  {
    assert if r in s.made then InOnePlace(s, r) else Nowhere(s, r);
    StepOnHeldByStop(s, e, r);
    if IsStopStep(e) {
      StopStepKeepsPlace(s, e, r);
    } else {
      LoopStepKeepsPlace(s, e, r);
    }
  }

  lemma KeepsConserved(s: System, e: Event)
    requires Enabled(s, e) && WellPlaced(s) && Conserved(s)
    ensures Conserved(Next(s, e))
  {
    var t := Next(s, e);
    forall r ensures if r in t.made then InOnePlace(t, r) else Nowhere(t, r) {
      KeepsPlace(s, e, r);
    }
    forall c, d, r | HeldByCall(t, c, r) && HeldByCall(t, d, r) ensures c == d {
      StepOnHeldByCall(s, e, r, c);
      StepOnHeldByCall(s, e, r, d);
      assert r in s.made ==> InOnePlace(s, r);
      assert r !in s.made ==> Nowhere(s, r);
      assert HeldByCall(s, c, r) || HeldByCall(s, d, r) ==> HeldByStop(s, r);
    }
  }

  lemma {:induction false} SoundInEveryRun(es: seq<Event>, states: seq<System>, n: nat)
    requires IsRun(es, states) && n <= |es|
    ensures WellPlaced(states[n]) && Conserved(states[n])
  {
    if n > 0 {
      SoundInEveryRun(es, states, n - 1);
      KeepsWellPlaced(states[n - 1], es[n - 1]);
      KeepsConserved(states[n - 1], es[n - 1]);
    }
  }

  // ----- main results -----

  /** In every interleaving each opened connection and channel is installed, closed, or held by exactly one
      step that will install or close it; never two of these. */
  lemma EveryResourceIsAccountedFor(es: seq<Event>, states: seq<System>, n: nat, r: Resource)
    requires IsRun(es, states) && n <= |es| && r in states[n].made
    ensures InOnePlace(states[n], r)
    ensures forall c, d :: HeldByCall(states[n], c, r) && HeldByCall(states[n], d, r) ==> c == d
  {
    SoundInEveryRun(es, states, n);
  }

  /** The resources step `e` calls `Close` on. */
  function CloseCalls(s: System, e: Event): set<Resource>
    requires Enabled(s, e)
  {
    match e
    case CloseOld => SetOf(s.shared.mqChannel) + SetOf(s.shared.mqConnect)
    case CloseRefused => {s.loop.conn}
    case ChannelSection => if s.shared.mqConnect != Some(s.loop.conn) then {s.loop.ch} else {}
    case StopClosesChannel(call) => SetOf(s.stops[call].ch)
    case StopClosesConnection(call) => SetOf(s.stops[call].conn)
    case _ => {}
  }

  /** Nothing is closed twice. */
  lemma NothingIsClosedTwice(es: seq<Event>, states: seq<System>, i: nat, r: Resource)
    requires IsRun(es, states) && i < |es| && r in CloseCalls(states[i], es[i])
    ensures r in states[i].made && r !in states[i].closed && r in states[i + 1].closed
  {
    SoundInEveryRun(es, states, i);
    var s, e := states[i], es[i];
    assert if r in s.made then InOnePlace(s, r) else Nowhere(s, r);
    if e.StopClosesChannel? || e.StopClosesConnection? {
      assert HeldByCall(s, e.call, r) && HeldByStop(s, r);
    }
  }

  /** An installed channel always belongs to the installed connection. */
  lemma InstalledChannelBelongsToConnection(es: seq<Event>, states: seq<System>, n: nat)
    requires IsRun(es, states) && n <= |es| && states[n].shared.mqChannel.Some?
    ensures states[n].shared.mqChannel.value.Channel?
    ensures states[n].shared.mqConnect == Some(states[n].shared.mqChannel.value.connection)
  {
    SoundInEveryRun(es, states, n);
  }

  /** The loop never installs over something that is installed, so nothing is lost that way. */
  lemma NothingIsOverwritten(es: seq<Event>, states: seq<System>, i: nat)
    requires IsRun(es, states) && i < |es|
    ensures es[i].DialSection? ==> states[i].shared.mqConnect == None
    ensures es[i].ChannelSection? ==> states[i].shared.mqChannel == None
  {
    SoundInEveryRun(es, states, i);
  }

  /** After `Stop`'s section nothing is installed again, unless `Start` is called. */
  lemma {:induction false} NothingInstalledAfterStop(es: seq<Event>, states: seq<System>, i: nat, n: nat)
    requires IsRun(es, states) && i < n <= |es| && es[i].StopSection?
    requires forall k :: i < k < n ==> es[k] != Start
    ensures states[n].shared == Shared(None, None, true)
    decreases n
  {
    SoundInEveryRun(es, states, n - 1);
    if i < n - 1 {
      NothingInstalledAfterStop(es, states, i, n - 1);
    }
  }

  /** Nothing leaks: when the loop has left and every `Stop` call has returned, one of them after the last
      `Start`, everything that was ever opened is closed. */
  lemma EverythingIsClosedInTheEnd(es: seq<Event>, states: seq<System>, i: nat, n: nat)
    requires IsRun(es, states) && i < n <= |es| && es[i].StopSection?
    requires forall k :: i < k < n ==> es[k] != Start
    requires states[n].loop == NotRunning && states[n].stops == map[]
    ensures states[n].closed == states[n].made
  {
    SoundInEveryRun(es, states, n);
    NothingInstalledAfterStop(es, states, i, n);
    var s := states[n];
    forall r ensures r in s.closed <==> r in s.made {
      assert if r in s.made then InOnePlace(s, r) else Nowhere(s, r);
      assert !HeldByStop(s, r);
    }
  }
}
