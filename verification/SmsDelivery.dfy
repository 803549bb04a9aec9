/** What a call of `sendMessage` returns, and where ids are on their way to it (`smsc/smsc.go`), over the runs of
    `SmsCorrelation`. */
module SmsDelivery {
  import opened Prelude
  import opened SmsCorrelation

  // ----- what decides a call -----

  /** The result timeout fires for call `c`. */
  ghost predicate TimedOutAt(es: seq<Event>, states: seq<System>, i: nat, c: CallId) {
    i < |es| && i < |states| && es[i].Timeout? && states[i].sendMu == Some(c)
  }

  /** Call `c` is woken by the id in its result channel. */
  ghost predicate WokenAt(es: seq<Event>, states: seq<System>, i: nat, c: CallId) {
    i < |es| && i < |states| && es[i].Wake? && states[i].sendMu == Some(c)
  }

  /** Forwarder `k` of call `c` passes `id` on to the call. */
  ghost predicate PassedAt(es: seq<Event>, states: seq<System>, j: nat, c: CallId, k: nat, id: MessageId) {
    j < |es| && j < |states| && es[j] == Pass(c, k)
    && c < |states[j].calls| && k < |states[j].calls[c].forwarders| && states[j].calls[c].forwarders[k] == Carrying(id)
  }

  lemma OneActiveInEveryRun(es: seq<Event>, states: seq<System>, n: nat)
    requires IsRun(es, states) && n <= |es|
    ensures OneActiveCall(states[n])
  {
    SoundInEveryRun(es, states, n);
  }

  predicate Decided(call: Call) {
    call.stage.Deciding? || call.stage.Leaving? || call.stage.Returned?
  }

  lemma CallsStay(s: System, e: Event)
    requires Enabled(s, e)
    ensures |s.calls| <= |Next(s, e).calls|
  {
  }

  lemma DecisionStays(s: System, e: Event, c: CallId)
    requires Enabled(s, e) && OneActiveCall(s) && c < |s.calls| && Decided(s.calls[c])
    ensures c < |Next(s, e).calls| && Decided(Next(s, e).calls[c])
    ensures Next(s, e).calls[c].stage.outcome == s.calls[c].stage.outcome
  {
  }

  lemma {:induction false} DecisionLasts(es: seq<Event>, states: seq<System>, m: nat, n: nat, c: CallId)
    requires IsRun(es, states) && m <= n <= |es| && c < |states[m].calls| && Decided(states[m].calls[c])
    ensures c < |states[n].calls| && Decided(states[n].calls[c])
    ensures states[n].calls[c].stage.outcome == states[m].calls[c].stage.outcome
    decreases n
  {
    if m < n {
      DecisionLasts(es, states, m, n - 1, c);
      OneActiveInEveryRun(es, states, n - 1);
      DecisionStays(states[n - 1], es[n - 1], c);
    }
  }

  /** A timeout decides for the timeout error, a wake-up for the id that was there. */
  lemma EventDecides(es: seq<Event>, states: seq<System>, i: nat, n: nat, c: CallId)
    requires IsRun(es, states) && i < n <= |es| && (TimedOutAt(es, states, i, c) || WokenAt(es, states, i, c))
    ensures c < |states[i].calls| && c < |states[n].calls| && Decided(states[n].calls[c])
    ensures states[n].calls[c].stage.outcome == if es[i].Timeout? then None else states[i].calls[c].result
  {
    DecisionLasts(es, states, i + 1, n, c);
  }

  lemma UndecidedStays(s: System, e: Event, c: CallId)
    requires Enabled(s, e) && OneActiveCall(s) && c < |Next(s, e).calls| && Decided(Next(s, e).calls[c])
    requires !((e.Timeout? || e.Wake?) && s.sendMu == Some(c))
    ensures c < |s.calls| && Decided(s.calls[c])
  {
  }

  lemma {:induction false} DecidingEvent(es: seq<Event>, states: seq<System>, n: nat, c: CallId) returns (i: nat)
    requires IsRun(es, states) && n <= |es| && c < |states[n].calls| && Decided(states[n].calls[c])
    ensures i < n && (TimedOutAt(es, states, i, c) || WokenAt(es, states, i, c))
  {
    i := n - 1;
    OneActiveInEveryRun(es, states, i);
    if !TimedOutAt(es, states, i, c) && !WokenAt(es, states, i, c) {
      UndecidedStays(states[i], es[i], c);
      i := DecidingEvent(es, states, i, c);
    }
  }

  // ----- the id in the result channel -----

  /** `Pass` number `j` was the last of call `c` before event `n`. */
  ghost predicate LastPass(es: seq<Event>, states: seq<System>, j: nat, n: nat, c: CallId, k: nat, id: MessageId)
    requires n <= |es|
  {
    j < n && PassedAt(es, states, j, c, k, id) && forall m :: j < m < n ==> !(es[m].Pass? && es[m].c == c)
  }

  /** The result channel is filled by a pass and emptied by a wake-up. */
  lemma ResultStep(s: System, e: Event, c: CallId)
    requires Enabled(s, e) && c < |s.calls|
    ensures c < |Next(s, e).calls|
    ensures e.Pass? && e.c == c ==>
      s.calls[c].forwarders[e.k].Carrying? && Next(s, e).calls[c].result == Some(s.calls[c].forwarders[e.k].id)
    ensures e.Wake? && s.sendMu == Some(c) ==> s.calls[c].result.Some? && Next(s, e).calls[c].result == None
    ensures !(e.Pass? && e.c == c) && !(e.Wake? && s.sendMu == Some(c)) ==>
      Next(s, e).calls[c].result == s.calls[c].result
  {
  }

  lemma NewCallHasNoResult(s: System, e: Event, c: CallId)
    requires Enabled(s, e) && |s.calls| <= c < |Next(s, e).calls|
    ensures Next(s, e).calls[c].result == None
  {
  }

  lemma {:induction false} ResultIsFromLastPass(es: seq<Event>, states: seq<System>, n: nat, c: CallId)
    returns (j: nat, k: nat)
    requires IsRun(es, states) && n <= |es| && c < |states[n].calls| && states[n].calls[c].result.Some?
    ensures LastPass(es, states, j, n, c, k, states[n].calls[c].result.value)
    decreases n
  {
    var m, id := n - 1, states[n].calls[c].result.value;
    ResultBefore(states[m], es[m], c);
    if es[m].Pass? && es[m].c == c {
      j, k := m, es[m].k;
      assert PassedAt(es, states, m, c, k, id);
    } else {
      j, k := ResultIsFromLastPass(es, states, m, c);
      LastPassStays(es, states, j, m, c, k, id);
    }
  }

  lemma LastPassStays(es: seq<Event>, states: seq<System>, j: nat, m: nat, c: CallId, k: nat, id: MessageId)
    requires m < |es| && LastPass(es, states, j, m, c, k, id) && !(es[m].Pass? && es[m].c == c)
    ensures LastPass(es, states, j, m + 1, c, k, id)
  {
  }

  lemma ResultBefore(s: System, e: Event, c: CallId)
    requires Enabled(s, e) && c < |Next(s, e).calls| && Next(s, e).calls[c].result.Some?
    ensures c < |s.calls|
    ensures if e.Pass? && e.c == c then
              e.k < |s.calls[c].forwarders| && s.calls[c].forwarders[e.k] == Carrying(Next(s, e).calls[c].result.value)
            else s.calls[c].result == Next(s, e).calls[c].result
  {
    if c >= |s.calls| {
      NewCallHasNoResult(s, e, c);
    }
    ResultStep(s, e, c);
  }

  /** A passed id stays in the result channel until the call wakes up. */
  lemma {:induction false} PassedIdWaits(es: seq<Event>, states: seq<System>, j: nat, n: nat, c: CallId, k: nat,
                                         id: MessageId)
    requires IsRun(es, states) && j < n <= |es| && PassedAt(es, states, j, c, k, id)
    requires forall i :: j < i < n ==> !WokenAt(es, states, i, c)
    ensures c < |states[n].calls| && states[n].calls[c].result == Some(id)
    decreases n
  {
    var s, e := states[n - 1], es[n - 1];
    if j == n - 1 {
      ResultStep(s, e, c);
    } else {
      PassedIdWaits(es, states, j, n - 1, c, k, id);
      assert !WokenAt(es, states, n - 1, c);
      ResultStep(s, e, c);
    }
  }

  /** A call returns the timeout error exactly if its timeout fired.  Otherwise it returns the id that woke it, the
      one its last forwarder before passed on. */
  lemma ReturnsWhatDecidedIt(es: seq<Event>, states: seq<System>, n: nat, c: CallId)
    requires IsRun(es, states) && n <= |es| && c < |states[n].calls| && states[n].calls[c].stage.Returned?
    ensures var outcome := states[n].calls[c].stage.outcome;
      && (outcome == None <==> exists i :: 0 <= i < n && TimedOutAt(es, states, i, c))
      && (outcome.Some? <==> exists i :: 0 <= i < n && WokenAt(es, states, i, c))
      && (outcome.Some? ==> exists i, j, k :: 0 <= i < n && 0 <= j && 0 <= k && WokenAt(es, states, i, c)
                                              && LastPass(es, states, j, i, c, k, outcome.value))
  {
    var i := DecidingEvent(es, states, n, c);
    EventDecides(es, states, i, n, c);
    if WokenAt(es, states, i, c) {
      var j, k := ResultIsFromLastPass(es, states, i, c);
    }
    forall m | 0 <= m < n && (TimedOutAt(es, states, m, c) || WokenAt(es, states, m, c))
      ensures states[n].calls[c].stage.outcome == None <==> es[m].Timeout?
    {
      EventDecides(es, states, m, n, c);
      if WokenAt(es, states, m, c) {
        ResultAtWake(es, states, m, c);
      }
    }
  }

  lemma ResultAtWake(es: seq<Event>, states: seq<System>, i: nat, c: CallId)
    requires IsRun(es, states) && WokenAt(es, states, i, c)
    ensures c < |states[i].calls| && states[i].calls[c].result.Some?
  {
  }

  // ----- where an id is -----

  /** Forwarder `k` of call `c` serves channel `ch`. */
  predicate Serves(s: System, c: CallId, k: nat, ch: Channel) {
    c < |s.calls| && k < |s.calls[c].chans| && k < |s.calls[c].forwarders| && s.calls[c].chans[k] == ch
  }

  predicate Carries(s: System, c: CallId, k: nat, ch: Channel, id: MessageId) {
    Serves(s, c, k, ch) && s.calls[c].forwarders[k] == Carrying(id)
  }

  /** The id is with its handler, in its channel, or with a forwarder of that channel. */
  ghost predicate Underway(s: System, h: HandlerId, part: Part, ch: Channel, id: MessageId) {
    || (h in s.handlers && s.handlers[h] == Handler(part, ch, id))
    || (ch < |s.buffer| && s.buffer[ch] == Some(id))
    || (exists c: nat, k: nat :: Carries(s, c, k, ch, id))
  }

  /** A forwarder of the channel passed the id on to its call, or gave up because the call had returned. */
  ghost predicate LetGo(s: System, e: Event, ch: Channel, id: MessageId) {
    || (e.Pass? && Carries(s, e.c, e.k, ch, id))
    || (e.Quit? && Serves(s, e.c, e.k, ch) && s.calls[e.c].stage.Returned?)
  }

  lemma HandlerMoves(s: System, e: Event, h: HandlerId, part: Part, ch: Channel, id: MessageId)
    requires Enabled(s, e) && SendRights(s) && h in s.handlers && s.handlers[h] == Handler(part, ch, id)
    ensures Underway(Next(s, e), h, part, ch, id)
  {
  }

  lemma BufferMoves(s: System, e: Event, h: HandlerId, part: Part, ch: Channel, id: MessageId)
    requires Enabled(s, e) && SendRights(s) && ch < |s.buffer| && s.buffer[ch] == Some(id)
    ensures Underway(Next(s, e), h, part, ch, id)
  {
    if e.Forward? && s.calls[e.c].chans[e.k] == ch {
      assert Carries(Next(s, e), e.c, e.k, ch, id);
    }
  }

  lemma CarrierMoves(s: System, e: Event, c: CallId, k: nat, ch: Channel, id: MessageId)
    requires Enabled(s, e) && OneActiveCall(s) && Carries(s, c, k, ch, id) && !LetGo(s, e, ch, id)
    requires s.sendMu == Some(c) ==> !s.calls[c].stage.Registering?
    ensures Carries(Next(s, e), c, k, ch, id)
  {
    if Touched(s, e) != Some(c) {
      OthersUntouched(s, e, c);
    } else if e.Forward? || e.Pass? || e.Quit? {
      assert e.k != k;
    }
  }

  /** Forwarders are started once, one for each part, when all parts have been submitted. */
  ghost predicate ForwardersStarted(s: System) {
    forall c :: 0 <= c < |s.calls| ==> StartedRightly(s, s.calls[c])
  }

  predicate Started(call: Call) {
    call.stage.Waiting? || Decided(call)
  }

  ghost predicate StartedRightly(s: System, call: Call) {
    && |call.chans| <= |call.parts| && (call.stage.Registered? || call.stage.Submitting? ==> call.chans != [])
    && (if Started(call) then |call.forwarders| == |call.chans| == |call.parts| else call.forwarders == [])
    && forall k :: 0 <= k < |call.chans| && !(k == |call.chans| - 1 && (call.stage.Registered? || call.stage.Failed?))
         ==> call.parts[k] in s.submitted
  }

  lemma StartedCallStays(s: System, e: Event, c: CallId)
    requires Enabled(s, e) && OneActiveCall(s) && c < |s.calls| && StartedRightly(s, s.calls[c])
    ensures c < |Next(s, e).calls| && StartedRightly(Next(s, e), Next(s, e).calls[c])
  {
    SubmittedGrows(s, e);
    if Touched(s, e) != Some(c) {
      OthersUntouched(s, e, c);
    } else {
      TouchedCallStays(s, e, c);
    }
  }

  lemma SubmittedGrows(s: System, e: Event)
    requires Enabled(s, e)
    ensures s.submitted <= Next(s, e).submitted
  {
  }

  lemma TouchedCallStays(s: System, e: Event, c: CallId)
    requires Enabled(s, e) && OneActiveCall(s) && c < |s.calls| && StartedRightly(s, s.calls[c])
    requires Touched(s, e) == Some(c)
    ensures c < |Next(s, e).calls| && StartedRightly(Next(s, e), Next(s, e).calls[c])
  {
    if e.Forward? || e.Pass? || e.Quit? {
      ForwarderCallStays(s, e, c);
    } else {
      HolderCallStays(s, e, c);
    }
  }

  lemma ForwarderCallStays(s: System, e: Event, c: CallId)
    requires Enabled(s, e) && c < |s.calls| && StartedRightly(s, s.calls[c])
    requires (e.Forward? || e.Pass? || e.Quit?) && e.c == c
    ensures c < |Next(s, e).calls| && StartedRightly(Next(s, e), Next(s, e).calls[c])
  {
  }

  lemma HolderCallStays(s: System, e: Event, c: CallId)
    requires Enabled(s, e) && OneActiveCall(s) && c < |s.calls| && StartedRightly(s, s.calls[c])
    requires s.sendMu == Some(c) && Touched(s, e) == Some(c) && !e.Forward? && !e.Pass? && !e.Quit?
    ensures c < |Next(s, e).calls| && StartedRightly(Next(s, e), Next(s, e).calls[c])
  {
  }

  lemma NewCallIsNotStarted(s: System, e: Event, c: CallId)
    requires Enabled(s, e) && |s.calls| <= c < |Next(s, e).calls|
    ensures StartedRightly(Next(s, e), Next(s, e).calls[c])
  {
  }

  lemma {:induction false} StartedInEveryRun(es: seq<Event>, states: seq<System>, n: nat)
    requires IsRun(es, states) && n <= |es|
    ensures ForwardersStarted(states[n])
  {
    if n > 0 {
      StartedInEveryRun(es, states, n - 1);
      SoundInEveryRun(es, states, n - 1);
      forall c | 0 <= c < |states[n].calls| ensures StartedRightly(states[n], states[n].calls[c]) {
        if c < |states[n - 1].calls| {
          StartedCallStays(states[n - 1], es[n - 1], c);
        } else {
          NewCallIsNotStarted(states[n - 1], es[n - 1], c);
        }
      }
    }
  }

  lemma IdMoves(s: System, e: Event, h: HandlerId, part: Part, ch: Channel, id: MessageId)
    requires Enabled(s, e) && Sound(s) && ForwardersStarted(s) && Underway(s, h, part, ch, id)
    ensures Underway(Next(s, e), h, part, ch, id) || LetGo(s, e, ch, id)
  {
    if h in s.handlers && s.handlers[h] == Handler(part, ch, id) {
      HandlerMoves(s, e, h, part, ch, id);
    } else if ch < |s.buffer| && s.buffer[ch] == Some(id) {
      BufferMoves(s, e, h, part, ch, id);
    } else if !LetGo(s, e, ch, id) {
      var c: nat, k: nat :| Carries(s, c, k, ch, id);
      assert StartedRightly(s, s.calls[c]);
      CarrierMoves(s, e, c, k, ch, id);
    }
  }

  /** The id of a response that finds its part waiting is never lost: it stays with its handler, in its channel or
      with a forwarder of that channel, until the forwarder passes it on or its call has returned. */
  lemma {:induction false} IdIsNeverLost(es: seq<Event>, states: seq<System>, i: nat, n: nat)
    requires IsRun(es, states) && i < n <= |es| && es[i].Respond? && es[i].part in states[i].waitChs
    ensures var e := es[i];
      var ch := states[i].waitChs[e.part];
      Underway(states[n], e.h, e.part, ch, e.id) || exists j :: i < j < n && LetGo(states[j], es[j], ch, e.id)
    decreases n
  {
    var e, m := es[i], n - 1;
    var ch := states[i].waitChs[e.part];
    if i < m {
      IdIsNeverLost(es, states, i, m);
      if !exists j :: i < j < m && LetGo(states[j], es[j], ch, e.id) {
        SoundInEveryRun(es, states, m);
        StartedInEveryRun(es, states, m);
        IdMoves(states[m], es[m], e.h, e.part, ch, e.id);
      }
    }
  }

  lemma PartsStay(s: System, e: Event, c: CallId)
    requires Enabled(s, e) && c < |s.calls|
    ensures c < |Next(s, e).calls| && Next(s, e).calls[c].parts == s.calls[c].parts
  {
  }

  /** A call keeps the parts it began with: as many as its text was split into. */
  lemma {:induction false} CallKeepsItsParts(es: seq<Event>, states: seq<System>, i: nat, n: nat)
    requires IsRun(es, states) && i < n <= |es| && es[i].Begin?
    ensures var c := |states[i].calls|;
      c < |states[n].calls| && |states[n].calls[c].parts| == es[i].n
    decreases n
  {
    if i + 1 < n {
      CallKeepsItsParts(es, states, i, n - 1);
      PartsStay(states[n - 1], es[n - 1], |states[i].calls|);
    } else {
      BeginMakesCall(states[i], es[i]);
    }
  }

  lemma BeginMakesCall(s: System, e: Event)
    requires Enabled(s, e) && e.Begin?
    ensures var t := Next(s, e);
      |t.calls| == |s.calls| + 1 && |t.calls[|s.calls|].parts| == e.n && t.sendMu == Some(|s.calls|)
  {
  }

  /** A call that waits for its result, or has got past that, has submitted all the parts it began with and started
      one forwarder for each. */
  lemma WaitingCallHasSubmittedAll(es: seq<Event>, states: seq<System>, i: nat, n: nat)
    requires IsRun(es, states) && i < n <= |es| && es[i].Begin?
    ensures var c := |states[i].calls|;
      c < |states[n].calls| && (Started(states[n].calls[c]) ==>
        var call := states[n].calls[c];
        && |call.forwarders| == |call.chans| == |call.parts| == es[i].n
        && forall k :: 0 <= k < |call.parts| ==> call.parts[k] in states[n].submitted)
  {
    CallKeepsItsParts(es, states, i, n);
    StartedInEveryRun(es, states, n);
    var c := |states[i].calls|;
    assert StartedRightly(states[n], states[n].calls[c]);
  }

  // ----- no call gets stuck -----

  /** The steps of the call that holds `sendMu`. */
  predicate HolderStep(e: Event) {
    StaysInCall(e) || EndsCall(e)
  }

  /** Whoever holds `sendMu` always has a step to take, without waiting for any response. */
  lemma HolderIsNeverStuck(es: seq<Event>, states: seq<System>, n: nat)
    requires IsRun(es, states) && n <= |es| && states[n].sendMu.Some?
    ensures exists e :: HolderStep(e) && Enabled(states[n], e)
  {
    SoundInEveryRun(es, states, n);
    StartedInEveryRun(es, states, n);
    var s := states[n];
    var call := s.calls[Holder(s)];
    assert StartedRightly(s, call);
    var e := match call.stage
      case Registering => if |call.chans| < |call.parts| then Register else StartWaiting
      case Registered => Submit
      case Submitting => SubmitReturns
      case Waiting => Timeout
      case Deciding(_) => Drop
      case _ => Leave;
    assert HolderStep(e) && Enabled(s, e);
  }

  /** Nothing blocks an id on its way either: a handler can deliver, a full channel with a listening forwarder can be
      emptied, and a carried id can be passed on whenever the result channel is free. */
  lemma IdsCanMove(es: seq<Event>, states: seq<System>, n: nat)
    requires IsRun(es, states) && n <= |es|
    ensures var s := states[n];
      && (forall h :: h in s.handlers ==> Enabled(s, Deliver(h)))
      && (forall c: nat, k: nat :: c < |s.calls| && k < |s.calls[c].forwarders| ==>
            var call := s.calls[c];
            && k < |call.chans| && call.chans[k] < |s.buffer|
            && (call.forwarders[k] == Listening && s.buffer[call.chans[k]].Some? ==> Enabled(s, Forward(c, k)))
            && (call.forwarders[k].Carrying? && call.result == None ==> Enabled(s, Pass(c, k)))
            && (call.forwarders[k] != Gone && call.stage.Returned? ==> Enabled(s, Quit(c, k))))
  {
    SoundInEveryRun(es, states, n);
    StartedInEveryRun(es, states, n);
    var s := states[n];
    forall c: nat, k: nat | c < |s.calls| && k < |s.calls[c].forwarders|
      ensures k < |s.calls[c].chans| && s.calls[c].chans[k] < |s.buffer|
    {
      assert StartedRightly(s, s.calls[c]);
    }
  }

  // ----- a run that returns the id -----

  /** A call with the one part 0, in the course of `AnsweredCallReturnsId`. */
  function OnePart(waitChs: map<Part, Channel>, call: Call, slot: Option<MessageId>, sent: nat,
                   handlers: map<HandlerId, Handler>, submitted: set<Part>, answers: set<(Part, MessageId)>): System
  {
    System(Some(0), waitChs, [call], 1, [0], [slot], [sent], handlers, submitted, answers, {}, 0)
  }

  /** The same once the part is answered and its id has left the handler. */
  function OneAnswered(call: Call, slot: Option<MessageId>, id: MessageId): System {
    OnePart(map[], call, slot, 1, map[], {0}, {(0, id)})
  }

  const PART: Call := Call([0], [0], [], None, Registered)

  lemma OnePartRegisters()
    ensures var s := Next(INITIAL, Begin(1));
      && Enabled(INITIAL, Begin(1)) && Enabled(s, Register)
      && Next(s, Register) == OnePart(map[0 := 0], PART, None, 0, map[], {}, {})
  {
    var s := Next(INITIAL, Begin(1));
    var call := Call([0], [], [], None, Registering);
    assert NewParts(0, 1) == [0];
    assert s == System(Some(0), map[], [call], 1, [], [], [], map[], {}, {}, {}, 0);
    var t := Next(s, Register);
    assert t.calls[0].chans == [0];
    assert t.calls == [PART] && t.registeredFor == [0] && t.buffer == [None] && t.sent == [0];
  }

  lemma OnePartSubmits()
    ensures var s := OnePart(map[0 := 0], PART, None, 0, map[], {}, {});
      && Enabled(s, Submit)
      && Next(s, Submit) == OnePart(map[0 := 0], PART.(stage := Submitting), None, 0, map[], {0}, {})
  {
    var s := OnePart(map[0 := 0], PART, None, 0, map[], {}, {});
    assert Next(s, Submit).calls == [PART.(stage := Submitting)] && Next(s, Submit).submitted == {0};
  }

  lemma OnePartIsAnswered(id: MessageId)
    ensures var s := OnePart(map[0 := 0], PART.(stage := Submitting), None, 0, map[], {0}, {});
      var t := OnePart(map[], PART.(stage := Submitting), None, 0, map[0 := Handler(0, 0, id)], {0}, {(0, id)});
      && Enabled(s, Respond(0, 0, id)) && Next(s, Respond(0, 0, id)) == t
      && Enabled(t, Deliver(0)) && Next(t, Deliver(0)) == OneAnswered(PART.(stage := Submitting), Some(id), id)
  {
    var s := OnePart(map[0 := 0], PART.(stage := Submitting), None, 0, map[], {0}, {});
    var t := OnePart(map[], PART.(stage := Submitting), None, 0, map[0 := Handler(0, 0, id)], {0}, {(0, id)});
    assert Next(s, Respond(0, 0, id)).waitChs == map[] && Next(s, Respond(0, 0, id)).answers == {(0, id)};
    assert Next(t, Deliver(0)).buffer == [Some(id)] && Next(t, Deliver(0)).sent == [1];
    assert Next(t, Deliver(0)).handlers == map[];
  }

  lemma OnePartStarts(id: MessageId)
    ensures var s := OneAnswered(PART.(stage := Submitting), Some(id), id);
      var t := OneAnswered(PART.(stage := Registering), Some(id), id);
      && Enabled(s, SubmitReturns) && Next(s, SubmitReturns) == t && Enabled(t, StartWaiting)
      && Next(t, StartWaiting) == OneAnswered(PART.(forwarders := [Listening], stage := Waiting), Some(id), id)
  {
    var s := OneAnswered(PART.(stage := Submitting), Some(id), id);
    var t := OneAnswered(PART.(stage := Registering), Some(id), id);
    assert Next(s, SubmitReturns).calls == t.calls;
    assert Next(t, StartWaiting).calls[0].forwarders == [Listening];
    assert Next(t, StartWaiting).calls == [PART.(forwarders := [Listening], stage := Waiting)];
  }

  lemma OnePartForwards(id: MessageId)
    ensures var s := OneAnswered(PART.(forwarders := [Listening], stage := Waiting), Some(id), id);
      var t := OneAnswered(PART.(forwarders := [Carrying(id)], stage := Waiting), None, id);
      && Enabled(s, Forward(0, 0)) && Next(s, Forward(0, 0)) == t
      && Enabled(t, Pass(0, 0))
      && Next(t, Pass(0, 0)) == OneAnswered(PART.(forwarders := [Gone], result := Some(id), stage := Waiting), None, id)
  {
    var s := OneAnswered(PART.(forwarders := [Listening], stage := Waiting), Some(id), id);
    var t := OneAnswered(PART.(forwarders := [Carrying(id)], stage := Waiting), None, id);
    assert Next(s, Forward(0, 0)).calls[0].forwarders == [Carrying(id)];
    assert Next(s, Forward(0, 0)).calls == t.calls && Next(s, Forward(0, 0)).buffer == [None];
    assert Next(t, Pass(0, 0)).calls[0].forwarders == [Gone];
    assert Next(t, Pass(0, 0)).calls == [PART.(forwarders := [Gone], result := Some(id), stage := Waiting)];
  }

  lemma OnePartReturns(id: MessageId)
    ensures var s := OneAnswered(PART.(forwarders := [Gone], result := Some(id), stage := Waiting), None, id);
      var t := OneAnswered(PART.(forwarders := [Gone], stage := Deciding(Some(id))), None, id);
      && Enabled(s, Wake) && Next(s, Wake) == t
      && Enabled(t, Drop) && Enabled(Next(t, Drop), Leave)
      && var u := Next(Next(t, Drop), Leave);
         u.sendMu == None && u.waitChs == map[] && |u.calls| == 1 && u.calls[0].stage == Returned(Some(id))
  {
    var s := OneAnswered(PART.(forwarders := [Gone], result := Some(id), stage := Waiting), None, id);
    var t := OneAnswered(PART.(forwarders := [Gone], stage := Deciding(Some(id))), None, id);
    assert Next(s, Wake).calls == t.calls;
  }

  /** A part that is answered even before its `Submit` reports success; then its call returns the id. */
  lemma AnsweredCallReturnsId(id: MessageId) returns (es: seq<Event>, states: seq<System>)
    ensures IsRun(es, states) && |states[|es|].calls| == 1
    ensures states[|es|].calls[0].stage == Returned(Some(id))
    ensures states[|es|].sendMu == None && states[|es|].waitChs == map[]
  {
    es, states := OnePartWaits(id);
    OnePartForwards(id);
    es, states := ExtendOnce(es, states, Forward(0, 0));
    es, states := ExtendOnce(es, states, Pass(0, 0));
    OnePartReturns(id);
    es, states := ExtendOnce(es, states, Wake);
    es, states := ExtendOnce(es, states, Drop);
    es, states := ExtendOnce(es, states, Leave);
  }

  lemma OnePartWaits(id: MessageId) returns (es: seq<Event>, states: seq<System>)
    ensures IsRun(es, states)
    ensures states[|es|] == OneAnswered(PART.(forwarders := [Listening], stage := Waiting), Some(id), id)
  {
    OnePartRegisters();
    es, states := ExtendOnce([], [INITIAL], Begin(1));
    es, states := ExtendOnce(es, states, Register);
    OnePartSubmits();
    es, states := ExtendOnce(es, states, Submit);
    OnePartIsAnswered(id);
    es, states := ExtendOnce(es, states, Respond(0, 0, id));
    es, states := ExtendOnce(es, states, Deliver(0));
    OnePartStarts(id);
    es, states := ExtendOnce(es, states, SubmitReturns);
    es, states := ExtendOnce(es, states, StartWaiting);
  }

  lemma ExtendOnce(es: seq<Event>, states: seq<System>, e: Event) returns (es': seq<Event>, states': seq<System>)
    requires IsRun(es, states) && Enabled(states[|es|], e)
    ensures IsRun(es', states') && states'[|es'|] == Next(states[|es|], e)
  {
    es', states' := Extend(es, states, e, Next(states[|es|], e));
  }
}
