/** When the reconnect loop of `mq/rabbitmq/rabbitMQ.go` installs what it has opened, in terms of the `Start` and
    `Stop` calls of a run. */
module RabbitInstalls {
  import opened Prelude
  import opened RabbitConnection

  /** Whether the last call of `Start` or `Stop` before event `n` was a `Stop`. */
  function LastWasStop(es: seq<Event>, n: nat): bool
    requires n <= |es|
  {
    if n == 0 then false
    else match es[n - 1]
      case Start => false
      case StopSection(_) => true
      case _ => LastWasStop(es, n - 1)
  }

  lemma {:induction false} StoppedIffLastWasStop(es: seq<Event>, states: seq<System>, n: nat)
    requires IsRun(es, states) && n <= |es|
    ensures states[n].shared.stopped <==> LastWasStop(es, n)
  {
    if n > 0 {
      StoppedIffLastWasStop(es, states, n - 1);
    }
  }

  /** Whether the last of `Start` and the loop's own leaving before event `n` was `Start`. */
  function Started(es: seq<Event>, n: nat): bool
    requires n <= |es|
  {
    if n == 0 then false
    else match es[n - 1]
      case Start => true
      case LoopLeaves => false
      case _ => Started(es, n - 1)
  }

  /** The loop runs from `Start` until it leaves by itself: no failed dial or channel ends it. */
  lemma {:induction false} LoopRunsUntilItLeaves(es: seq<Event>, states: seq<System>, n: nat)
    requires IsRun(es, states) && n <= |es|
    ensures states[n].loop.NotRunning? <==> !Started(es, n)
  {
    if n > 0 {
      LoopRunsUntilItLeaves(es, states, n - 1);
    }
  }

  /** A new connection is installed unless the last call was a `Stop`; otherwise it is kept to be closed. */
  lemma DialInstallsUnlessStopped(es: seq<Event>, states: seq<System>, i: nat)
    requires IsRun(es, states) && i < |es| && es[i].DialSection?
    ensures var conn, t := states[i].loop.conn, states[i + 1];
      if LastWasStop(es, i) then t.loop == Refused(conn) && t.shared.mqConnect == None
      else t.loop == Connected && t.shared.mqConnect == Some(conn)
  {
    SoundInEveryRun(es, states, i);
    StoppedIffLastWasStop(es, states, i);
  }

  predicate NoStopBetween(es: seq<Event>, d: nat, n: nat)
    requires n <= |es|
  {
    forall k | d < k < n :: !es[k].StopSection?
  }

  /** Event `d` is the last `DialSection` before event `n`. */
  predicate LastDial(es: seq<Event>, d: nat, n: nat)
    requires n <= |es|
  {
    d < n && es[d].DialSection? && forall k | d < k < n :: !es[k].DialSection?
  }

  /** Between installing a connection and installing its channel. */
  predicate OpensChannel(s: System) {
    s.loop.Connected? || s.loop.Opening? || s.loop.Opened?
  }

  lemma OpeningStep(s: System, e: Event)
    requires Enabled(s, e) && OpensChannel(Next(s, e)) && !e.DialSection?
    ensures OpensChannel(s)
    ensures Next(s, e).shared.mqConnect == if e.StopSection? then None else s.shared.mqConnect
    ensures (Next(s, e).loop.Opening? || Next(s, e).loop.Opened?) ==>
      if s.loop.Connected? then s.shared.mqConnect == Some(Next(s, e).loop.conn)
      else (s.loop.Opening? || s.loop.Opened?) && s.loop.conn == Next(s, e).loop.conn
  {
  }

  lemma NoStopStep(es: seq<Event>, d: nat, m: nat)
    requires d < m < |es|
    ensures NoStopBetween(es, d, m + 1) <==> NoStopBetween(es, d, m) && !es[m].StopSection?
  {
  }

  /** The connection that the loop has installed last stays until a `Stop` takes it away, as long as the loop is busy
      opening its channel; and that is the connection the loop opens it on. */
  lemma {:induction false} InstalledUntilStop(es: seq<Event>, states: seq<System>, d: nat, n: nat)
    requires IsRun(es, states) && n <= |es| && LastDial(es, d, n) && OpensChannel(states[n])
    ensures states[d].loop.Dialed?
    ensures states[n].shared.mqConnect == if NoStopBetween(es, d, n) then Some(states[d].loop.conn) else None
    ensures states[n].loop.Opening? || states[n].loop.Opened? ==> states[n].loop.conn == states[d].loop.conn
    decreases n
  {
    if n == d + 1 {
      DialInstallsUnlessStopped(es, states, d);
    } else {
      var m := n - 1;
      OpeningStep(states[m], es[m]);
      InstalledUntilStop(es, states, d, m);
      NoStopStep(es, d, m);
    }
  }

  /** The loop goes on to open a channel exactly if no `Stop` came since it installed the connection, and installs
      the channel exactly if none has come by then either; otherwise the channel is closed at once. */
  lemma ChannelIsInstalledUnlessStopped(es: seq<Event>, states: seq<System>, d: nat, i: nat)
    requires IsRun(es, states) && i < |es| && LastDial(es, d, i)
    ensures es[i].ReadConnection? ==>
              states[i + 1].loop == if NoStopBetween(es, d, i) then Opening(states[d].loop.conn) else Resting
    ensures es[i].ChannelSection? ==>
              var ch, t := states[i].loop.ch, states[i + 1];
              if NoStopBetween(es, d, i) then t.shared.mqChannel == Some(ch) && ch !in t.closed
              else t.shared.mqChannel == None && ch in t.closed
  {
    SoundInEveryRun(es, states, i);
    if es[i].ReadConnection? || es[i].ChannelSection? {
      InstalledUntilStop(es, states, d, i);
    }
    if es[i].ChannelSection? {
      var s, ch := states[i], states[i].loop.ch;
      assert if ch in s.made then InOnePlace(s, ch) else Nowhere(s, ch);
      assert HeldByLoop(s, ch);
    }
  }

  /** A loop left alone connects. */
  lemma ConnectsWhenUndisturbed(conn: nat, ch: nat) returns (es: seq<Event>, states: seq<System>)
    ensures es == [Start, CloseOld, DialSucceeds(conn), DialSection, ReadConnection, OpenSucceeds(ch), ChannelSection]
    ensures IsRun(es, states)
    ensures states[7].shared == Shared(Some(Connection(conn)), Some(Channel(ch, Connection(conn))), false)
    ensures states[7].loop == Resting && states[7].closed == {}
  {
    var s4, r := DialsWhenUndisturbed(conn);
    var s5 := Next(s4, ReadConnection);
    var s6 := Next(s5, OpenSucceeds(ch));
    es := [Start, CloseOld, DialSucceeds(conn), DialSection, ReadConnection, OpenSucceeds(ch), ChannelSection];
    states := r + [s5, s6, Next(s6, ChannelSection)];
  }

  lemma DialsWhenUndisturbed(conn: nat) returns (s4: System, states: seq<System>)
    ensures IsRun([Start, CloseOld, DialSucceeds(conn), DialSection], states) && states[4] == s4
    ensures s4 == System(Shared(Some(Connection(conn)), None, false), {Connection(conn)}, {}, Connected, map[])
  {
    var s1 := Next(INITIAL, Start);
    var s2 := Next(s1, CloseOld);
    var s3 := Next(s2, DialSucceeds(conn));
    s4 := Next(s3, DialSection);
    states := [INITIAL, s1, s2, s3, s4];
  }

  /** The steps that the loop takes itself. */
  predicate LoopStep(e: Event) {
    !IsStopStep(e) && !e.Start?
  }

  /** The loop always has a step to take while it runs, and a `Stop` that has not returned as well. */
  lemma NobodyIsStuck(s: System)
    ensures s.loop != NotRunning ==> exists e :: LoopStep(e) && Enabled(s, e)
    ensures forall call :: call in s.stops ==>
      Enabled(s, StopClosesChannel(call)) || Enabled(s, StopClosesConnection(call)) || Enabled(s, StopReturns(call))
  {
    if s.loop != NotRunning {
      var e := match s.loop
        case AtTop => CloseOld
        case Dialing => DialFails
        case Dialed(_) => DialSection
        case Refused(_) => CloseRefused
        case Connected => ReadConnection
        case Opening(_) => OpenFails
        case Opened(_, _) => ChannelSection
        case _ => Retry;
      assert LoopStep(e) && Enabled(s, e);
    }
  }
}
