/** Correlating SMS submit responses with the calls that wait for them (`smsc/smsc.go`).

    `waitChs` maps each submitted part to the channel its message id must be sent to.
    Calls of `sendMessage` exclude each other with `sendMu`; response handlers run at
    any time, each in two steps, as does every goroutine that forwards one part's id. */
module SmsCorrelation {
  import opened Prelude

  type Part = nat      // one *pdu.SubmitSM
  type Channel = nat   // one part channel, of capacity 1
  type CallId = nat
  type HandlerId = nat
  type MessageId = string

  /** `waitChs` without the messages from index `from` on. */
  function WithoutFrom(waitChs: map<Part, Channel>, messages: seq<Part>, from: nat): map<Part, Channel>
    requires from <= |messages|
  {
    var gone := messages[from..];
    map p | p in waitChs && p !in gone :: waitChs[p]
  }

  class SMSCenter {
    var waitChs: map<Part, Channel>

    constructor ()
      ensures waitChs == map[]
    {
      waitChs := map[];
    }

    method Register(msg: Part, partCh: Channel)
      modifies this
      ensures waitChs == old(waitChs)[msg := partCh]
    {
      waitChs := waitChs[msg := partCh];
    }

    /** The locked part of `handleSubmitSMResponse`: whoever takes a waiter removes it. */
    method TakeWaiter(orig: Part) returns (ch: Option<Channel>)
      modifies this
      ensures ch == if orig in old(waitChs) then Some(old(waitChs)[orig]) else None
      ensures waitChs == old(waitChs) - {orig}
    {
      ch := if orig in waitChs then Some(waitChs[orig]) else None;
      if ch.Some? {
        waitChs := waitChs - {orig};
      }
    }

    method DropWaitingParts()
      modifies this
      ensures waitChs == map[]
    {
      var todo := waitChs.Keys;
      while todo != {}
        invariant todo == waitChs.Keys
        decreases todo
      {
        var k :| k in todo;
        waitChs := waitChs - {k};
        todo := todo - {k};
      }
    }

    method DropWaitingPartsFrom(messages: seq<Part>, from: nat)
      requires from <= |messages|
      modifies this
      ensures waitChs == WithoutFrom(old(waitChs), messages, from)
    {
      var rest := messages[from..];
      for i := 0 to |rest|
        invariant waitChs == map p | p in old(waitChs) && p !in rest[..i] :: old(waitChs)[p]
      {
        assert rest[..i + 1] == rest[..i] + [rest[i]];
        waitChs := waitChs - {rest[i]};
      }
      assert rest[..|rest|] == rest;
    }
  }

  // ----- runs -----

  /** A goroutine forwarding the id of one part. */
  datatype Forwarder = Listening | Carrying(id: MessageId) | Gone

  /** Where a call of `sendMessage` is.  From `Registering` to `Leaving` it holds `sendMu`. */
  datatype Stage =
    | Registering                       // the parts before `|chans|` are registered and submitted
    | Registered                        // the last part of `chans` is registered, not yet submitted
    | Submitting                        // that part is being submitted
    | Waiting                           // in the select over the first id and the timeout
    | Deciding(outcome: Option<MessageId>) // woken up, about to drop the waiting parts
    | Leaving(outcome: Option<MessageId>)  // dropped them, about to return and release `sendMu`
    | Failed                            // returned the error of `sendSMS`
    | Returned(outcome: Option<MessageId>) // returned an id, or the timeout error

  /** `parts` are the call's messages after splitting, `chans` the channels registered for them so far. */
  datatype Call = Call(
    parts: seq<Part>,
    chans: seq<Channel>,
    forwarders: seq<Forwarder>,
    result: Option<MessageId>,
    stage: Stage)

  /** A response handler that has taken channel `ch` and is about to send the id into it. */
  datatype Handler = Handler(part: Part, ch: Channel, id: MessageId)

  /** Calls and channels are numbered by creation.  `buffer` is the content of each part channel; the rest is
      history: the part each channel was registered for, how many values each was sent, the parts handed to
      the session, the responses that arrived, as pairs of part and id, the parts taken back because their
      submit failed, and how many channels there were when `dropWaitingParts` last ran. */
  datatype System = System(
    sendMu: Option<CallId>,
    waitChs: map<Part, Channel>,
    calls: seq<Call>,
    nextPart: Part,
    registeredFor: seq<Part>,
    buffer: seq<Option<MessageId>>,
    sent: seq<nat>,
    handlers: map<HandlerId, Handler>,
    submitted: set<Part>,
    answers: set<(Part, MessageId)>,
    withdrawn: set<Part>,
    dropped: nat)

  const INITIAL := System(None, map[], [], 0, [], [], [], map[], {}, {}, {}, 0)

  datatype Event =
    | Begin(n: nat)                                     // lock sendMu, split the text into n messages
    | Refuse                                            // no session, or a bad address or text: give up
    | Register                                          // make and register the next part's channel
    | Submit                                            // hand the registered part to the session
    | SubmitReturns                                     // Submit reports success
    | SubmitFails                                       // Submit reports an error: drop this and later parts, give up
    | StartWaiting                                      // all parts submitted: start the forwarders
    | Respond(h: HandlerId, part: Part, id: MessageId)  // a response arrives, the handler looks up its waiter
    | Deliver(h: HandlerId)                             // the handler sends the id into the channel it took
    | Forward(c: CallId, k: nat)                        // a forwarder receives from its part channel
    | Pass(c: CallId, k: nat)                           // a forwarder sends into the result channel
    | Quit(c: CallId, k: nat)                           // a forwarder sees `done` closed
    | Wake                                              // the first id reaches the waiting call
    | Timeout                                           // the result timeout fires
    | Drop                                              // dropWaitingParts
    | Leave                                             // close `done`, release sendMu, return

  function Holder(s: System): CallId
    requires s.sendMu.Some?
  {
    s.sendMu.value
  }

  predicate HolderAt(s: System, stage: Stage) {
    s.sendMu.Some? && Holder(s) < |s.calls| && s.calls[Holder(s)].stage == stage
  }

  predicate ForwarderAt(s: System, c: CallId, k: nat) {
    c < |s.calls| && k < |s.calls[c].forwarders| && k < |s.calls[c].chans| && s.calls[c].chans[k] < |s.buffer|
  }

  predicate Enabled(s: System, e: Event) {
    match e
    case Begin(n) => s.sendMu == None
    case Refuse => HolderAt(s, Registering) && s.calls[Holder(s)].chans == []
    case Register => HolderAt(s, Registering) && |s.calls[Holder(s)].chans| < |s.calls[Holder(s)].parts|
    case Submit => HolderAt(s, Registered) && 0 < |s.calls[Holder(s)].chans| <= |s.calls[Holder(s)].parts|
    case SubmitReturns => HolderAt(s, Submitting)
    case SubmitFails => HolderAt(s, Submitting) && 0 < |s.calls[Holder(s)].chans| <= |s.calls[Holder(s)].parts|
    case StartWaiting => HolderAt(s, Registering) && |s.calls[Holder(s)].chans| == |s.calls[Holder(s)].parts|
    case Respond(h, part, id) => h !in s.handlers && part in s.submitted
    case Deliver(h) => h in s.handlers && s.handlers[h].ch < |s.buffer| && s.handlers[h].ch < |s.sent|
    case Forward(c, k) =>
      ForwarderAt(s, c, k) && s.calls[c].forwarders[k] == Listening && s.buffer[s.calls[c].chans[k]].Some?
    case Pass(c, k) => ForwarderAt(s, c, k) && s.calls[c].forwarders[k].Carrying? && s.calls[c].result == None
    case Quit(c, k) => ForwarderAt(s, c, k) && s.calls[c].forwarders[k] != Gone && s.calls[c].stage.Returned?
    case Wake => HolderAt(s, Waiting) && s.calls[Holder(s)].result.Some?
    case Timeout => HolderAt(s, Waiting)
    case Drop => s.sendMu.Some? && Holder(s) < |s.calls| && s.calls[Holder(s)].stage.Deciding?
    case Leave => s.sendMu.Some? && Holder(s) < |s.calls| && s.calls[Holder(s)].stage.Leaving?
  }

  function NewParts(first: Part, n: nat): (ps: seq<Part>)
    ensures |ps| == n && forall i :: 0 <= i < n ==> ps[i] == first + i
  {
    seq(n, i requires i >= 0 => first + i)
  }

  function SetCall(s: System, c: CallId, call: Call): System
    requires c < |s.calls|
  {
    s.(calls := s.calls[c := call])
  }

  /** What the non-blocking send does: into an empty buffer the id goes, otherwise it is lost. */
  function Offer(slot: Option<MessageId>, id: MessageId): Option<MessageId> {
    if slot == None then Some(id) else slot
  }

  function Next(s: System, e: Event): System
    requires Enabled(s, e)
  {
    match e
    case Begin(n) =>
      s.(sendMu := Some(|s.calls|),
         calls := s.calls + [Call(NewParts(s.nextPart, n), [], [], None, Registering)],
         nextPart := s.nextPart + n)
    case Refuse =>
      var c := Holder(s);
      SetCall(s, c, s.calls[c].(stage := Failed)).(sendMu := None)
    case Register =>
      var c := Holder(s);
      var call := s.calls[c];
      var part, ch := call.parts[|call.chans|], |s.buffer|;
      SetCall(s, c, call.(chans := call.chans + [ch], stage := Registered))
      .(waitChs := s.waitChs[part := ch], registeredFor := s.registeredFor + [part],
        buffer := s.buffer + [None], sent := s.sent + [0])
    case Submit =>
      var c := Holder(s);
      var call := s.calls[c];
      SetCall(s, c, call.(stage := Submitting)).(submitted := s.submitted + {call.parts[|call.chans| - 1]})
    case SubmitReturns =>
      var c := Holder(s);
      SetCall(s, c, s.calls[c].(stage := Registering))
    case SubmitFails =>
      var c := Holder(s);
      var call := s.calls[c];
      SetCall(s, c, call.(stage := Failed))
      .(waitChs := WithoutFrom(s.waitChs, call.parts, |call.chans| - 1), sendMu := None,
        withdrawn := s.withdrawn + {call.parts[|call.chans| - 1]})
    case StartWaiting =>
      var c := Holder(s);
      var call := s.calls[c];
      SetCall(s, c, call.(forwarders := seq(|call.chans|, _ => Listening), stage := Waiting))
    case Respond(h, part, id) =>
      var t := s.(answers := s.answers + {(part, id)});
      if part in s.waitChs then
        t.(waitChs := s.waitChs - {part}, handlers := s.handlers[h := Handler(part, s.waitChs[part], id)])
      else t
    case Deliver(h) =>
      var ch := s.handlers[h].ch;
      s.(buffer := s.buffer[ch := Offer(s.buffer[ch], s.handlers[h].id)], sent := s.sent[ch := s.sent[ch] + 1],
         handlers := s.handlers - {h})
    case Forward(c, k) =>
      var call := s.calls[c];
      var ch := call.chans[k];
      SetCall(s, c, call.(forwarders := call.forwarders[k := Carrying(s.buffer[ch].value)]))
      .(buffer := s.buffer[ch := None])
    case Pass(c, k) =>
      var call := s.calls[c];
      SetCall(s, c, call.(forwarders := call.forwarders[k := Gone], result := Some(call.forwarders[k].id)))
    case Quit(c, k) =>
      SetCall(s, c, s.calls[c].(forwarders := s.calls[c].forwarders[k := Gone]))
    case Wake =>
      var c := Holder(s);
      SetCall(s, c, s.calls[c].(result := None, stage := Deciding(s.calls[c].result)))
    case Timeout =>
      var c := Holder(s);
      SetCall(s, c, s.calls[c].(stage := Deciding(None)))
    case Drop =>
      var c := Holder(s);
      SetCall(s, c, s.calls[c].(stage := Leaving(s.calls[c].stage.outcome)))
      .(waitChs := map[], dropped := |s.buffer|)
    case Leave =>
      var c := Holder(s);
      SetCall(s, c, s.calls[c].(stage := Returned(s.calls[c].stage.outcome))).(sendMu := None)
  }

  ghost predicate IsRun(es: seq<Event>, states: seq<System>) {
    && |states| == |es| + 1 && states[0] == INITIAL
    && forall i :: 0 <= i < |es| ==> Enabled(states[i], es[i]) && states[i + 1] == Next(states[i], es[i])
  }

  // ----- what every step keeps -----

  /** One of the call's registered parts was answered with `id`. */
  ghost predicate AnsweredFor(s: System, call: Call, id: MessageId) {
    exists k :: 0 <= k < |call.chans| <= |call.parts| && (call.parts[k], id) in s.answers
  }

  /** Only the newest call can hold `sendMu`; all others are over. */
  ghost predicate OneActiveCall(s: System) {
    && (s.sendMu.Some? ==> s.sendMu.value == |s.calls| - 1 && !Over(s.calls[|s.calls| - 1]))
    && (forall c :: 0 <= c < |s.calls| && s.sendMu != Some(c) ==> Over(s.calls[c]))
  }

  predicate Over(call: Call) { call.stage.Failed? || call.stage.Returned? }

  /** The channel table has one row per channel, and every part is registered at most once. */
  ghost predicate ChannelTable(s: System) {
    && |s.registeredFor| == |s.buffer| == |s.sent|
    && (forall ch :: 0 <= ch < |s.registeredFor| ==> s.registeredFor[ch] < s.nextPart)
    && (forall ch, dh :: 0 <= ch < dh < |s.registeredFor| ==> s.registeredFor[ch] != s.registeredFor[dh])
  }

  /** The part numbers of a call ascend, and those of the active call that come next are still unregistered. */
  ghost predicate CallParts(s: System) {
    && (forall c :: 0 <= c < |s.calls| ==> |s.calls[c].chans| <= |s.calls[c].parts|)
    && (forall c, k :: 0 <= c < |s.calls| && 0 <= k < |s.calls[c].chans| ==>
          s.calls[c].chans[k] < |s.registeredFor| && s.registeredFor[s.calls[c].chans[k]] == s.calls[c].parts[k])
    && (s.sendMu.Some? && Holder(s) < |s.calls| ==> UpcomingFresh(s, s.calls[Holder(s)]))
  }

  ghost predicate UpcomingFresh(s: System, call: Call) {
    && (forall k :: 0 <= k < |call.parts| ==> call.parts[k] < s.nextPart)
    && (forall j, k :: 0 <= j < k < |call.parts| ==> call.parts[j] < call.parts[k])
    && (forall k, ch :: |call.chans| <= k < |call.parts| && 0 <= ch < |s.registeredFor| ==>
          s.registeredFor[ch] != call.parts[k])
  }

  /** The right to send into a channel is held once: by its entry in `waitChs`, or by one handler; it is
      used up when the channel has received its one value. */
  ghost predicate SendRights(s: System) {
    && |s.registeredFor| == |s.buffer| == |s.sent|
    && (forall p :: p in s.waitChs ==>
          s.waitChs[p] < |s.sent| && s.registeredFor[s.waitChs[p]] == p && s.sent[s.waitChs[p]] == 0)
    && (forall h :: h in s.handlers ==> var w := s.handlers[h];
          w.ch < |s.sent| && s.registeredFor[w.ch] == w.part && s.sent[w.ch] == 0 && w.part !in s.waitChs)
    && (forall g, h :: g in s.handlers && h in s.handlers && s.handlers[g].ch == s.handlers[h].ch ==> g == h)
    && (forall ch :: 0 <= ch < |s.sent| ==> s.sent[ch] <= 1 && (s.sent[ch] == 0 ==> s.buffer[ch] == None))
  }

  /** Every id on its way answers the part of its channel, and answers are for submitted parts. */
  ghost predicate WiresAnswer(s: System) {
    && |s.registeredFor| == |s.buffer|
    && (forall h :: h in s.handlers ==> (s.handlers[h].part, s.handlers[h].id) in s.answers)
    && (forall ch :: 0 <= ch < |s.buffer| && s.buffer[ch].Some? ==>
          (s.registeredFor[ch], s.buffer[ch].value) in s.answers)
    && (forall a :: a in s.answers ==> a.0 in s.submitted)
  }

  /** Every id a call has got answers a part of that call. */
  ghost predicate CallsAnswer(s: System) {
    forall c :: 0 <= c < |s.calls| ==> CallIdsAnswer(s, s.calls[c])
  }

  ghost predicate CallIdsAnswer(s: System, call: Call) {
    && |call.forwarders| <= |call.chans| <= |call.parts|
    && (forall k :: 0 <= k < |call.forwarders| && call.forwarders[k].Carrying? ==>
          (call.parts[k], call.forwarders[k].id) in s.answers)
    && (call.result.Some? ==> AnsweredFor(s, call, call.result.value))
    && (call.stage.Deciding? || call.stage.Leaving? || call.stage.Returned? ==>
          call.stage.outcome.Some? ==> AnsweredFor(s, call, call.stage.outcome.value))
  }

  ghost predicate DroppedWhenLeaving(s: System) {
    s.sendMu.Some? && Holder(s) < |s.calls| && s.calls[Holder(s)].stage.Leaving? ==> s.waitChs == map[]
  }

  ghost predicate Sound(s: System) {
    && OneActiveCall(s) && ChannelTable(s) && CallParts(s) && SendRights(s)
    && WiresAnswer(s) && CallsAnswer(s) && DroppedWhenLeaving(s)
  }

  /** A step that changes neither the holder nor any stage. */
  lemma SameStagesKeepOneActiveCall(s: System, t: System)
    requires OneActiveCall(s) && t.sendMu == s.sendMu && |t.calls| == |s.calls|
    requires forall c :: 0 <= c < |s.calls| ==> t.calls[c].stage == s.calls[c].stage
    ensures OneActiveCall(t)
  {
  }

  /** Steps of the holder that leave it inside its call. */
  predicate StaysInCall(e: Event) {
    e.Register? || e.Submit? || e.SubmitReturns? || e.StartWaiting? || e.Wake? || e.Timeout? || e.Drop?
  }

  /** Steps that end the call and release `sendMu`. */
  predicate EndsCall(e: Event) {
    e.Refuse? || e.SubmitFails? || e.Leave?
  }

  lemma StayingKeepsOneActiveCall(s: System, e: Event)
    requires Enabled(s, e) && OneActiveCall(s) && StaysInCall(e)
    ensures OneActiveCall(Next(s, e))
  {
  }

  lemma EndingKeepsOneActiveCall(s: System, e: Event)
    requires Enabled(s, e) && OneActiveCall(s) && EndsCall(e)
    ensures OneActiveCall(Next(s, e))
  {
  }

  lemma KeepsOneActiveCall(s: System, e: Event)
    requires Enabled(s, e) && OneActiveCall(s)
    ensures OneActiveCall(Next(s, e))
  {
    if StaysInCall(e) {
      StayingKeepsOneActiveCall(s, e);
    } else if EndsCall(e) {
      EndingKeepsOneActiveCall(s, e);
    } else if !e.Begin? {
      SameStagesKeepOneActiveCall(s, Next(s, e));
    }
  }

  /** Steps that touch neither the parts nor the channels of any call. */
  predicate LeavesChannelsAlone(e: Event) {
    !e.Begin? && !e.Register?
  }

  lemma ChannelsLeftAlone(s: System, e: Event)
    requires Enabled(s, e) && LeavesChannelsAlone(e)
    ensures var t := Next(s, e);
      && t.registeredFor == s.registeredFor && t.nextPart == s.nextPart && |t.calls| == |s.calls|
      && |t.buffer| == |s.buffer| && |t.sent| == |s.sent| && (t.sendMu == s.sendMu || t.sendMu == None)
  {
  }

  lemma PartsLeftAlone(s: System, e: Event, c: CallId)
    requires Enabled(s, e) && LeavesChannelsAlone(e) && c < |s.calls| && c < |Next(s, e).calls|
    ensures Next(s, e).calls[c].parts == s.calls[c].parts && Next(s, e).calls[c].chans == s.calls[c].chans
  {
  }

  lemma RegisterKeepsChannelTable(s: System)
    requires Enabled(s, Register) && OneActiveCall(s) && ChannelTable(s) && CallParts(s)
    ensures ChannelTable(Next(s, Register))
  {
    assert UpcomingFresh(s, s.calls[Holder(s)]);
  }

  lemma KeepsChannelTable(s: System, e: Event)
    requires Enabled(s, e) && OneActiveCall(s) && ChannelTable(s) && CallParts(s)
    ensures ChannelTable(Next(s, e))
  {
    if e.Register? {
      RegisterKeepsChannelTable(s);
    } else if LeavesChannelsAlone(e) {
      ChannelsLeftAlone(s, e);
    }
  }

  lemma SameChannelsKeepCallParts(s: System, t: System)
    requires CallParts(s)
    requires t.registeredFor == s.registeredFor && t.nextPart == s.nextPart && |t.calls| == |s.calls|
    requires t.sendMu == s.sendMu || t.sendMu == None
    requires forall c :: 0 <= c < |s.calls| ==>
      t.calls[c].parts == s.calls[c].parts && t.calls[c].chans == s.calls[c].chans
    ensures CallParts(t)
  {
  }

  lemma RegisterKeepsCallParts(s: System)
    requires Enabled(s, Register) && OneActiveCall(s) && ChannelTable(s) && CallParts(s)
    ensures CallParts(Next(s, Register))
  {
    var t := Next(s, Register);
    var call, call' := s.calls[Holder(s)], t.calls[Holder(s)];
    assert UpcomingFresh(s, call);
    assert UpcomingFresh(t, call');
  }

  lemma BeginKeepsCallParts(s: System, e: Event)
    requires Enabled(s, e) && e.Begin? && ChannelTable(s) && CallParts(s)
    ensures CallParts(Next(s, e))
  {
  }

  lemma KeepsCallParts(s: System, e: Event)
    requires Enabled(s, e) && OneActiveCall(s) && ChannelTable(s) && CallParts(s)
    ensures CallParts(Next(s, e))
  {
    if e.Register? {
      RegisterKeepsCallParts(s);
    } else if LeavesChannelsAlone(e) {
      var t := Next(s, e);
      ChannelsLeftAlone(s, e);
      forall c | 0 <= c < |s.calls|
        ensures t.calls[c].parts == s.calls[c].parts && t.calls[c].chans == s.calls[c].chans
      {
        PartsLeftAlone(s, e, c);
      }
      SameChannelsKeepCallParts(s, t);
    } else {
      BeginKeepsCallParts(s, e);
    }
  }

  lemma RegisterKeepsSendRights(s: System)
    requires Enabled(s, Register) && ChannelTable(s) && CallParts(s) && SendRights(s)
    ensures SendRights(Next(s, Register))
  {
    var call := s.calls[Holder(s)];
    assert UpcomingFresh(s, call);
  }

  lemma RespondKeepsSendRights(s: System, h: HandlerId, part: Part, id: MessageId)
    requires Enabled(s, Respond(h, part, id)) && ChannelTable(s) && SendRights(s)
    ensures SendRights(Next(s, Respond(h, part, id)))
  {
    if part in s.waitChs {
      var t := Next(s, Respond(h, part, id));
      var ch := s.waitChs[part];
      assert s.registeredFor[ch] == part && s.sent[ch] == 0;
      forall g | g in s.handlers ensures s.handlers[g].ch != ch {
        assert s.handlers[g].part !in s.waitChs;
      }
    }
  }

  lemma DeliverKeepsSendRights(s: System, h: HandlerId)
    requires Enabled(s, Deliver(h)) && ChannelTable(s) && SendRights(s)
    ensures SendRights(Next(s, Deliver(h)))
  {
  }

  lemma FewerWaitersKeepSendRights(s: System, t: System)
    requires SendRights(s)
    requires t.registeredFor == s.registeredFor && t.sent == s.sent && t.handlers == s.handlers
    requires |t.buffer| == |s.buffer|
    requires forall p :: p in t.waitChs ==> p in s.waitChs && t.waitChs[p] == s.waitChs[p]
    requires forall ch :: 0 <= ch < |s.buffer| && s.buffer[ch] == None ==> t.buffer[ch] == None
    ensures SendRights(t)
  {
  }

  lemma NoRightsMove(s: System, e: Event)
    requires Enabled(s, e) && !e.Register? && !e.Respond? && !e.Deliver?
    ensures var t := Next(s, e);
      && t.registeredFor == s.registeredFor && t.sent == s.sent && t.handlers == s.handlers
      && |t.buffer| == |s.buffer|
      && (forall p :: p in t.waitChs ==> p in s.waitChs && t.waitChs[p] == s.waitChs[p])
      && (forall ch :: 0 <= ch < |s.buffer| && s.buffer[ch] == None ==> t.buffer[ch] == None)
  {
  }

  lemma OtherStepKeepsSendRights(s: System, e: Event)
    requires Enabled(s, e) && !e.Register? && !e.Respond? && !e.Deliver? && SendRights(s)
    ensures SendRights(Next(s, e))
  {
    NoRightsMove(s, e);
    FewerWaitersKeepSendRights(s, Next(s, e));
  }

  lemma KeepsSendRights(s: System, e: Event)
    requires Enabled(s, e) && ChannelTable(s) && CallParts(s) && SendRights(s)
    ensures SendRights(Next(s, e))
  {
    match e
    case Register => RegisterKeepsSendRights(s);
    case Respond(h, part, id) => RespondKeepsSendRights(s, h, part, id);
    case Deliver(h) => DeliverKeepsSendRights(s, h);
    case _ => OtherStepKeepsSendRights(s, e);
  }

  /** More answers, and more registered channels of the same call, only help. */
  lemma AnsweredForGrows(s: System, call: Call, t: System, call': Call, id: MessageId)
    requires AnsweredFor(s, call, id) && s.answers <= t.answers
    requires call.parts == call'.parts && call.chans <= call'.chans && |call'.chans| <= |call'.parts|
    ensures AnsweredFor(t, call', id)
  {
    var k :| 0 <= k < |call.chans| <= |call.parts| && (call.parts[k], id) in s.answers;
    assert (call'.parts[k], id) in t.answers;
  }

  lemma CallIdsAnswerGrows(s: System, t: System, call: Call)
    requires CallIdsAnswer(s, call) && s.answers <= t.answers
    ensures CallIdsAnswer(t, call)
  {
    if call.result.Some? { AnsweredForGrows(s, call, t, call, call.result.value); }
    if (call.stage.Deciding? || call.stage.Leaving? || call.stage.Returned?) && call.stage.outcome.Some? {
      AnsweredForGrows(s, call, t, call, call.stage.outcome.value);
    }
  }

  /** Steps that put no id on its way and register nothing. */
  lemma FewerIdsKeepWiresAnswer(s: System, t: System)
    requires WiresAnswer(s) && t.registeredFor == s.registeredFor && |t.buffer| == |s.buffer|
    requires t.handlers == s.handlers && t.answers == s.answers && s.submitted <= t.submitted
    requires forall ch :: 0 <= ch < |s.buffer| && t.buffer[ch].Some? ==> t.buffer[ch] == s.buffer[ch]
    ensures WiresAnswer(t)
  {
  }

  lemma RespondKeepsWiresAnswer(s: System, e: Event)
    requires Enabled(s, e) && e.Respond? && SendRights(s) && WiresAnswer(s)
    ensures WiresAnswer(Next(s, e))
  {
  }

  lemma DeliverKeepsWiresAnswer(s: System, e: Event)
    requires Enabled(s, e) && e.Deliver? && SendRights(s) && WiresAnswer(s)
    ensures WiresAnswer(Next(s, e))
  {
  }

  lemma RegisterKeepsWiresAnswer(s: System)
    requires Enabled(s, Register) && WiresAnswer(s)
    ensures WiresAnswer(Next(s, Register))
  {
  }

  lemma NoIdsSentOut(s: System, e: Event)
    requires Enabled(s, e) && !e.Register? && !e.Respond? && !e.Deliver?
    ensures var t := Next(s, e);
      && t.registeredFor == s.registeredFor && |t.buffer| == |s.buffer|
      && t.handlers == s.handlers && t.answers == s.answers && s.submitted <= t.submitted
      && (forall ch :: 0 <= ch < |s.buffer| && t.buffer[ch].Some? ==> t.buffer[ch] == s.buffer[ch])
  {
  }

  lemma OtherStepKeepsWiresAnswer(s: System, e: Event)
    requires Enabled(s, e) && !e.Register? && !e.Respond? && !e.Deliver? && WiresAnswer(s)
    ensures WiresAnswer(Next(s, e))
  {
    NoIdsSentOut(s, e);
    FewerIdsKeepWiresAnswer(s, Next(s, e));
  }

  lemma KeepsWiresAnswer(s: System, e: Event)
    requires Enabled(s, e) && ChannelTable(s) && SendRights(s) && WiresAnswer(s)
    ensures WiresAnswer(Next(s, e))
  {
    match e
    case Respond(_, _, _) => RespondKeepsWiresAnswer(s, e);
    case Deliver(_) => DeliverKeepsWiresAnswer(s, e);
    case Register => RegisterKeepsWiresAnswer(s);
    case _ => OtherStepKeepsWiresAnswer(s, e);
  }

  /** The call whose record step `e` replaces, if any. */
  function Touched(s: System, e: Event): Option<CallId>
    requires Enabled(s, e)
  {
    match e
    case Begin(_) => None
    case Respond(_, _, _) => None
    case Deliver(_) => None
    case Forward(c, _) => Some(c)
    case Pass(c, _) => Some(c)
    case Quit(c, _) => Some(c)
    case _ => s.sendMu
  }

  /** The steps of the call itself keep its ids right. */
  lemma HolderKeepsCallIds(s: System, e: Event)
    requires Enabled(s, e) && OneActiveCall(s) && CallParts(s) && CallsAnswer(s)
    requires Touched(s, e) == s.sendMu && s.sendMu.Some?
    requires !e.Forward? && !e.Pass? && !e.Quit?
    ensures CallIdsAnswer(Next(s, e), Next(s, e).calls[Holder(s)])
  {
    var t := Next(s, e);
    var call, call' := s.calls[Holder(s)], t.calls[Holder(s)];
    assert CallIdsAnswer(s, call);
    if call.result.Some? { AnsweredForGrows(s, call, t, call', call.result.value); }
    if (call.stage.Deciding? || call.stage.Leaving?) && call.stage.outcome.Some? {
      AnsweredForGrows(s, call, t, call', call.stage.outcome.value);
    }
  }

  /** A call whose forwarders carry answers, and which has got no new id, has its ids right. */
  lemma ForwardersKeepCallIds(s: System, t: System, call: Call, call': Call)
    requires CallIdsAnswer(s, call) && t.answers == s.answers
    requires call'.parts == call.parts && call'.chans == call.chans && call'.stage == call.stage
    requires call'.result == call.result && |call'.forwarders| == |call.forwarders|
    requires forall k :: 0 <= k < |call'.forwarders| && call'.forwarders[k].Carrying? ==>
      (call'.parts[k], call'.forwarders[k].id) in t.answers
    ensures CallIdsAnswer(t, call')
  {
    CallIdsAnswerGrows(s, t, call);
    if call.result.Some? { AnsweredForGrows(s, call, t, call', call.result.value); }
    if (call.stage.Deciding? || call.stage.Leaving? || call.stage.Returned?) && call.stage.outcome.Some? {
      AnsweredForGrows(s, call, t, call', call.stage.outcome.value);
    }
  }

  lemma ForwardKeepsCallIds(s: System, c: CallId, k: nat)
    requires Enabled(s, Forward(c, k)) && ChannelTable(s) && CallParts(s) && WiresAnswer(s) && CallsAnswer(s)
    ensures CallIdsAnswer(Next(s, Forward(c, k)), Next(s, Forward(c, k)).calls[c])
  {
    var t := Next(s, Forward(c, k));
    assert CallIdsAnswer(s, s.calls[c]);
    assert s.registeredFor[s.calls[c].chans[k]] == s.calls[c].parts[k];
    ForwardersKeepCallIds(s, t, s.calls[c], t.calls[c]);
  }

  lemma PassKeepsCallIds(s: System, c: CallId, k: nat)
    requires Enabled(s, Pass(c, k)) && CallsAnswer(s)
    ensures CallIdsAnswer(Next(s, Pass(c, k)), Next(s, Pass(c, k)).calls[c])
  {
    var t := Next(s, Pass(c, k));
    var call, call' := s.calls[c], t.calls[c];
    assert CallIdsAnswer(s, call);
    assert (call'.parts[k], call.forwarders[k].id) in t.answers;
    if (call.stage.Deciding? || call.stage.Leaving? || call.stage.Returned?) && call.stage.outcome.Some? {
      AnsweredForGrows(s, call, t, call', call.stage.outcome.value);
    }
  }

  lemma QuitKeepsCallIds(s: System, c: CallId, k: nat)
    requires Enabled(s, Quit(c, k)) && CallsAnswer(s)
    ensures CallIdsAnswer(Next(s, Quit(c, k)), Next(s, Quit(c, k)).calls[c])
  {
    var t := Next(s, Quit(c, k));
    assert CallIdsAnswer(s, s.calls[c]);
    ForwardersKeepCallIds(s, t, s.calls[c], t.calls[c]);
  }

  lemma TouchedKeepsCallIds(s: System, e: Event, c: CallId)
    requires Enabled(s, e) && Touched(s, e) == Some(c)
    requires OneActiveCall(s) && ChannelTable(s) && CallParts(s) && WiresAnswer(s) && CallsAnswer(s)
    ensures c < |Next(s, e).calls| && CallIdsAnswer(Next(s, e), Next(s, e).calls[c])
  {
    match e
    case Forward(_, k) => ForwardKeepsCallIds(s, c, k);
    case Pass(_, k) => PassKeepsCallIds(s, c, k);
    case Quit(_, k) => QuitKeepsCallIds(s, c, k);
    case _ => HolderKeepsCallIds(s, e);
  }

  lemma OthersUntouched(s: System, e: Event, c: CallId)
    requires Enabled(s, e) && c < |s.calls| && Touched(s, e) != Some(c)
    ensures c < |Next(s, e).calls| && Next(s, e).calls[c] == s.calls[c] && s.answers <= Next(s, e).answers
  {
  }

  lemma KeepsCallsAnswer(s: System, e: Event)
    requires Enabled(s, e) && Sound(s)
    ensures CallsAnswer(Next(s, e))
  {
    var t := Next(s, e);
    forall c | 0 <= c < |t.calls| ensures CallIdsAnswer(t, t.calls[c]) {
      if Touched(s, e) == Some(c) {
        TouchedKeepsCallIds(s, e, c);
      } else if c < |s.calls| {
        OthersUntouched(s, e, c);
        CallIdsAnswerGrows(s, t, s.calls[c]);
      } else {
        NewCallHasNoIds(s, e);
      }
    }
  }

  lemma NewCallHasNoIds(s: System, e: Event)
    requires Enabled(s, e) && |Next(s, e).calls| > |s.calls|
    ensures var t := Next(s, e); |t.calls| == |s.calls| + 1 && CallIdsAnswer(t, t.calls[|s.calls|])
  {
  }

  lemma KeepsDropped(s: System, e: Event)
    requires Enabled(s, e) && OneActiveCall(s) && DroppedWhenLeaving(s)
    ensures DroppedWhenLeaving(Next(s, e))
  {
  }

  /** Every step keeps the protocol sound. */
  lemma StepKeepsSound(s: System, e: Event)
    requires Enabled(s, e) && Sound(s)
    ensures Sound(Next(s, e))
  {
    KeepsOneActiveCall(s, e);
    KeepsChannelTable(s, e);
    KeepsCallParts(s, e);
    KeepsSendRights(s, e);
    KeepsWiresAnswer(s, e);
    KeepsCallsAnswer(s, e);
    KeepsDropped(s, e);
  }

  lemma {:induction false} SoundInEveryRun(es: seq<Event>, states: seq<System>, n: nat)
    requires IsRun(es, states) && n <= |es|
    ensures Sound(states[n])
  {
    if n > 0 {
      SoundInEveryRun(es, states, n - 1);
      StepKeepsSound(states[n - 1], es[n - 1]);
    }
  }

  // ----- main results -----

  /** In every interleaving, an id that `sendMessage` returns was sent in answer to a part which that
      same call submitted. */
  lemma ReturnedIdAnswersOwnPart(es: seq<Event>, states: seq<System>, n: nat, c: CallId)
    requires IsRun(es, states) && n <= |es| && c < |states[n].calls|
    requires states[n].calls[c].stage.Returned? && states[n].calls[c].stage.outcome.Some?
    ensures var call := states[n].calls[c];
      exists k :: 0 <= k < |call.parts| && call.parts[k] in states[n].submitted
                  && (call.parts[k], call.stage.outcome.value) in states[n].answers
  {
    SoundInEveryRun(es, states, n);
    var s := states[n];
    var call := s.calls[c];
    assert CallIdsAnswer(s, call) && AnsweredFor(s, call, call.stage.outcome.value);
    var k :| 0 <= k < |call.chans| <= |call.parts| && (call.parts[k], call.stage.outcome.value) in s.answers;
    assert (call.parts[k], call.stage.outcome.value).0 in s.submitted;
  }

  /** The non-blocking send of a handler never loses an id: the channel is empty and has never been used,
      however many responses arrive for the part and however late. */
  lemma DeliveryNeverLosesAnId(es: seq<Event>, states: seq<System>, i: nat)
    requires IsRun(es, states) && i < |es| && es[i].Deliver?
    ensures var w := states[i].handlers[es[i].h];
      && states[i].sent[w.ch] == 0 && states[i].buffer[w.ch] == None
      && states[i + 1].buffer[w.ch] == Some(w.id)
  {
    SoundInEveryRun(es, states, i);
  }

  /** Each part channel receives at most one value, ever. */
  lemma AtMostOneIdPerChannel(es: seq<Event>, states: seq<System>, n: nat, ch: Channel)
    requires IsRun(es, states) && n <= |es| && ch < |states[n].sent|
    ensures states[n].sent[ch] <= 1
  {
    SoundInEveryRun(es, states, n);
  }

  /** No part is waiting any more when a call that got past `sendSMS` releases `sendMu`. */
  lemma NothingWaitsWhenCallLeaves(es: seq<Event>, states: seq<System>, i: nat)
    requires IsRun(es, states) && i < |es| && es[i].Leave?
    ensures states[i + 1].sendMu == None && states[i + 1].waitChs == map[]
  {
    SoundInEveryRun(es, states, i);
  }

  // ----- what a failed call leaves behind -----

  ghost predicate Answered(s: System, p: Part) {
    exists id :: (p, id) in s.answers
  }

  /** The part of channel `ch` waits exactly when it was registered since parts were last dropped, its submit
      has not failed, and no response to it has arrived. */
  ghost predicate WaitsRightly(s: System, ch: Channel)
    requires ch < |s.registeredFor|
  {
    var p := s.registeredFor[ch];
    p in s.waitChs <==> s.dropped <= ch && p !in s.withdrawn && !Answered(s, p)
  }

  /** Only registered parts are submitted or taken back. */
  ghost predicate SubmittedAreRegistered(s: System) {
    forall p :: p in s.submitted || p in s.withdrawn ==> p in s.registeredFor
  }

  /** A call inside `sendSMS` has registered its parts since the last drop and taken none back. */
  ghost predicate SendingPartsAreOut(s: System) {
    s.sendMu.Some? && Holder(s) < |s.calls| ==> PartsAreOut(s, s.calls[Holder(s)])
  }

  predicate Sending(call: Call) {
    call.stage.Registering? || call.stage.Registered? || call.stage.Submitting?
  }

  ghost predicate PartsAreOut(s: System, call: Call) {
    Sending(call) ==>
      |call.chans| <= |call.parts| &&
      forall k :: 0 <= k < |call.chans| ==> s.dropped <= call.chans[k] && call.parts[k] !in s.withdrawn
  }

  ghost predicate WaitersKnown(s: System) {
    && s.dropped <= |s.registeredFor|
    && SubmittedAreRegistered(s) && SendingPartsAreOut(s)
    && forall ch :: 0 <= ch < |s.registeredFor| ==> WaitsRightly(s, ch)
  }

  /** The part that the holder has registered last. */
  lemma LastPartIsRegistered(s: System)
    requires CallParts(s) && s.sendMu.Some? && Holder(s) < |s.calls| && s.calls[Holder(s)].chans != []
    ensures var call := s.calls[Holder(s)];
      |call.chans| <= |call.parts| && call.parts[|call.chans| - 1] in s.registeredFor
  {
    var call := s.calls[Holder(s)];
    assert s.registeredFor[call.chans[|call.chans| - 1]] == call.parts[|call.chans| - 1];
  }

  lemma AnsweredIsSubmitted(s: System, p: Part)
    requires WiresAnswer(s)
    ensures Answered(s, p) ==> p in s.submitted
  {
    if Answered(s, p) {
      var id :| (p, id) in s.answers;
      assert (p, id).0 in s.submitted;
    }
  }

  /** The part that the holder registers next is new to everyone. */
  lemma NextPartIsFresh(s: System)
    requires Enabled(s, Register) && Sound(s) && WaitersKnown(s)
    ensures var call := s.calls[Holder(s)];
      var p := call.parts[|call.chans|];
      p !in s.registeredFor && p !in s.withdrawn && !Answered(s, p)
  {
    var call := s.calls[Holder(s)];
    var p := call.parts[|call.chans|];
    assert UpcomingFresh(s, call);
    AnsweredIsSubmitted(s, p);
  }

  /** A failed submit takes back the one registered part among those it drops. */
  lemma SubmitFailsDropsOne(s: System)
    requires Enabled(s, SubmitFails) && Sound(s)
    ensures var call := s.calls[Holder(s)];
      forall p :: p in s.registeredFor ==>
        (p in call.parts[|call.chans| - 1..] <==> p == call.parts[|call.chans| - 1])
  {
    var call := s.calls[Holder(s)];
    var gone := call.parts[|call.chans| - 1..];
    assert UpcomingFresh(s, call) && gone[0] == call.parts[|call.chans| - 1];
    forall p | p in s.registeredFor && p in gone ensures p == gone[0] {
      var k :| 0 <= k < |gone| && gone[k] == p;
      assert gone[k] == call.parts[|call.chans| - 1 + k];
    }
  }

  lemma NothingSubmitted(s: System, e: Event)
    requires Enabled(s, e) && !e.Register? && !e.Submit? && !e.SubmitFails?
    ensures var t := Next(s, e);
      t.registeredFor == s.registeredFor && t.submitted == s.submitted && t.withdrawn == s.withdrawn
  {
  }

  lemma KeepsSubmittedRegistered(s: System, e: Event)
    requires Enabled(s, e) && Sound(s) && WaitersKnown(s)
    ensures SubmittedAreRegistered(Next(s, e))
  {
    if e.Submit? || e.SubmitFails? {
      LastPartIsRegistered(s);
    } else if !e.Register? {
      NothingSubmitted(s, e);
    }
  }

  lemma RegisterKeepsPartsOut(s: System)
    requires Enabled(s, Register) && Sound(s) && WaitersKnown(s)
    ensures SendingPartsAreOut(Next(s, Register))
  {
    NextPartIsFresh(s);
    assert PartsAreOut(s, s.calls[Holder(s)]);
  }

  predicate SameSending(call: Call, call': Call) {
    call'.parts == call.parts && call'.chans == call.chans && (Sending(call') ==> Sending(call))
  }

  lemma SameSenderKeepsPartsOut(s: System, t: System)
    requires SendingPartsAreOut(s) && (t.sendMu == None || (t.sendMu == s.sendMu && |t.calls| == |s.calls|))
    requires t.dropped == s.dropped && t.withdrawn == s.withdrawn
    requires t.sendMu.Some? && Holder(s) < |s.calls| ==> SameSending(s.calls[Holder(s)], t.calls[Holder(s)])
    ensures SendingPartsAreOut(t)
  {
  }

  /** Steps that take no part from the call that holds `sendMu`, and leave it the holder. */
  predicate LeavesPartsOut(e: Event) {
    !(e.Begin? || e.Refuse? || e.Register? || e.SubmitFails? || e.Drop? || e.Leave?)
  }

  lemma SenderKeepsPartsOut(s: System, e: Event)
    requires Enabled(s, e) && SendingPartsAreOut(s) && s.sendMu.Some? && Holder(s) < |s.calls| && LeavesPartsOut(e)
    ensures SendingPartsAreOut(Next(s, e))
  {
    SameSenderKeepsPartsOut(s, Next(s, e));
  }

  lemma NewOrNoSenderKeepsPartsOut(s: System, e: Event)
    requires Enabled(s, e) && OneActiveCall(s) && !e.Register? && !LeavesPartsOut(e)
    ensures SendingPartsAreOut(Next(s, e))
  {
  }

  lemma KeepsSendingPartsOut(s: System, e: Event)
    requires Enabled(s, e) && Sound(s) && WaitersKnown(s)
    ensures SendingPartsAreOut(Next(s, e))
  {
    if e.Register? {
      RegisterKeepsPartsOut(s);
    } else if !LeavesPartsOut(e) {
      NewOrNoSenderKeepsPartsOut(s, e);
    } else if s.sendMu.Some? {
      SenderKeepsPartsOut(s, e);
    }
  }

  lemma RegisterKeepsWaits(s: System, ch: Channel)
    requires Enabled(s, Register) && Sound(s) && WaitersKnown(s) && ch < |Next(s, Register).registeredFor|
    ensures WaitsRightly(Next(s, Register), ch)
  {
    NextPartIsFresh(s);
    if ch < |s.registeredFor| {
      assert WaitsRightly(s, ch);
    }
  }

  lemma RespondKeepsWaits(s: System, e: Event, ch: Channel)
    requires Enabled(s, e) && e.Respond? && WaitersKnown(s) && ch < |s.registeredFor|
    ensures WaitsRightly(Next(s, e), ch)
  {
    var p, t := s.registeredFor[ch], Next(s, e);
    assert WaitsRightly(s, ch);
    if p == e.part {
      assert (p, e.id) in t.answers;
    } else {
      assert forall id :: (p, id) in t.answers <==> (p, id) in s.answers;
    }
  }

  lemma SubmitFailsKeepsWaits(s: System, ch: Channel)
    requires Enabled(s, SubmitFails) && Sound(s) && WaitersKnown(s) && ch < |s.registeredFor|
    ensures WaitsRightly(Next(s, SubmitFails), ch)
  {
    var p := s.registeredFor[ch];
    SubmitFailsDropsOne(s);
    assert WaitsRightly(s, ch);
    assert Answered(Next(s, SubmitFails), p) <==> Answered(s, p);
  }

  lemma DropKeepsWaits(s: System, ch: Channel)
    requires Enabled(s, Drop) && SendRights(s) && ch < |s.registeredFor|
    ensures WaitsRightly(Next(s, Drop), ch)
  {
  }

  lemma WaitersLeftAlone(s: System, e: Event)
    requires Enabled(s, e) && !e.Register? && !e.Respond? && !e.SubmitFails? && !e.Drop?
    ensures var t := Next(s, e);
      && t.registeredFor == s.registeredFor && t.waitChs == s.waitChs && t.answers == s.answers
      && t.withdrawn == s.withdrawn && t.dropped == s.dropped
  {
  }

  lemma OtherStepKeepsWaits(s: System, e: Event, ch: Channel)
    requires Enabled(s, e) && !e.Register? && !e.Respond? && !e.SubmitFails? && !e.Drop?
    requires ch < |s.registeredFor| && WaitsRightly(s, ch)
    ensures ch < |Next(s, e).registeredFor| && WaitsRightly(Next(s, e), ch)
  {
    WaitersLeftAlone(s, e);
  }

  lemma OldChannelKeepsWaits(s: System, e: Event, ch: Channel)
    requires Enabled(s, e) && !e.Register? && Sound(s) && WaitersKnown(s) && ch < |Next(s, e).registeredFor|
    ensures WaitsRightly(Next(s, e), ch)
  {
    SameChannels(s, e);
    assert WaitsRightly(s, ch);
    match e
    case Respond(_, _, _) => RespondKeepsWaits(s, e, ch);
    case SubmitFails => SubmitFailsKeepsWaits(s, ch);
    case Drop => DropKeepsWaits(s, ch);
    case _ => OtherStepKeepsWaits(s, e, ch);
  }

  lemma SameChannels(s: System, e: Event)
    requires Enabled(s, e) && !e.Register?
    ensures Next(s, e).registeredFor == s.registeredFor
  {
  }

  lemma KeepsWaits(s: System, e: Event, ch: Channel)
    requires Enabled(s, e) && Sound(s) && WaitersKnown(s) && ch < |Next(s, e).registeredFor|
    ensures WaitsRightly(Next(s, e), ch)
  {
    if e.Register? {
      RegisterKeepsWaits(s, ch);
    } else {
      OldChannelKeepsWaits(s, e, ch);
    }
  }

  lemma StepKeepsWaitersKnown(s: System, e: Event)
    requires Enabled(s, e) && Sound(s) && WaitersKnown(s)
    ensures WaitersKnown(Next(s, e))
  {
    var t := Next(s, e);
    KeepsSubmittedRegistered(s, e);
    KeepsSendingPartsOut(s, e);
    forall ch | 0 <= ch < |t.registeredFor| ensures WaitsRightly(t, ch) {
      KeepsWaits(s, e, ch);
    }
  }

  lemma {:induction false} WaitersKnownInEveryRun(es: seq<Event>, states: seq<System>, n: nat)
    requires IsRun(es, states) && n <= |es|
    ensures WaitersKnown(states[n])
  {
    if n > 0 {
      WaitersKnownInEveryRun(es, states, n - 1);
      SoundInEveryRun(es, states, n - 1);
      StepKeepsWaitersKnown(states[n - 1], es[n - 1]);
    }
  }

  /** What waits at any moment of any run: the parts registered since parts were last dropped that were neither
      taken back by a failed submit nor answered. */
  lemma WaitingPartsAreTheUnanswered(es: seq<Event>, states: seq<System>, n: nat, p: Part)
    requires IsRun(es, states) && n <= |es|
    ensures var s := states[n];
      && s.dropped <= |s.registeredFor|
      && (p in s.waitChs <==> p in s.registeredFor[s.dropped..] && p !in s.withdrawn && !Answered(s, p))
  {
    SoundInEveryRun(es, states, n);
    WaitersKnownInEveryRun(es, states, n);
    var s := states[n];
    var since := s.registeredFor[s.dropped..];
    if p in s.waitChs {
      var ch := s.waitChs[p];
      assert WaitsRightly(s, ch);
      assert since[ch - s.dropped] == p;
    }
    if p in since {
      var k :| 0 <= k < |since| && since[k] == p;
      assert WaitsRightly(s, s.dropped + k);
    }
  }

  lemma FailedCallParts(s: System)
    requires Enabled(s, SubmitFails) && Sound(s) && WaitersKnown(s)
    ensures var call, t := s.calls[Holder(s)], Next(s, SubmitFails);
      forall k :: 0 <= k < |call.parts| ==>
        (call.parts[k] in t.waitChs <==> k < |call.chans| - 1 && !Answered(s, call.parts[k]))
  {
    var call, t := s.calls[Holder(s)], Next(s, SubmitFails);
    var last := |call.chans| - 1;
    var gone := call.parts[last..];
    SubmitFailsDropsOne(s);
    assert PartsAreOut(s, call) && UpcomingFresh(s, call);
    forall k | 0 <= k < |call.parts|
      ensures call.parts[k] in t.waitChs <==> k < last && !Answered(s, call.parts[k])
    {
      if k >= last {
        assert gone[k - last] == call.parts[k];
      } else {
        assert s.registeredFor[call.chans[k]] == call.parts[k];
        assert WaitsRightly(s, call.chans[k]);
        assert call.parts[k] < call.parts[last];
      }
    }
  }

  lemma NothingWaitsIffAllAnswered(t: System)
    requires Sound(t) && WaitersKnown(t)
    ensures t.waitChs == map[] <==>
      forall ch :: t.dropped <= ch < |t.registeredFor| ==>
        t.registeredFor[ch] in t.withdrawn || Answered(t, t.registeredFor[ch])
  {
    if t.waitChs != map[] {
      var p :| p in t.waitChs;
      assert WaitsRightly(t, t.waitChs[p]);
    } else {
      forall ch | t.dropped <= ch < |t.registeredFor|
        ensures t.registeredFor[ch] in t.withdrawn || Answered(t, t.registeredFor[ch])
      {
        assert WaitsRightly(t, ch);
      }
    }
  }

  /** After a failed submit, a part of the call is left waiting exactly if it was submitted before the failed one
      and no response to it has arrived.  Nothing at all is left waiting exactly if every part that was
      registered since parts were last dropped, and that is not itself one whose submit failed, is answered. */
  lemma FailedCallLeavesEarlierParts(es: seq<Event>, states: seq<System>, i: nat)
    requires IsRun(es, states) && i < |es| && es[i].SubmitFails?
    ensures var s, t := states[i], states[i + 1];
      var call := s.calls[Holder(s)];
      && (forall k :: 0 <= k < |call.parts| ==>
            (call.parts[k] in t.waitChs <==> k < |call.chans| - 1 && !Answered(s, call.parts[k])))
      && (t.waitChs == map[] <==>
            forall ch :: t.dropped <= ch < |t.registeredFor| ==>
              t.registeredFor[ch] in t.withdrawn || Answered(t, t.registeredFor[ch]))
  {
    var s, t := states[i], states[i + 1];
    SoundInEveryRun(es, states, i);
    WaitersKnownInEveryRun(es, states, i);
    FailedCallParts(s);
    SoundInEveryRun(es, states, i + 1);
    WaitersKnownInEveryRun(es, states, i + 1);
    NothingWaitsIffAllAnswered(t);
  }

  /** A call with parts 0 and 1 of which the first `registered` are registered and the first `submitted` submitted. */
  function TwoParts(registered: nat, submitted: nat, stage: Stage): System
    requires registered <= 2 && submitted <= 2
  {
    var chans := [0, 1][..registered];
    var waiting := if registered == 0 then map[] else if registered == 1 then map[0 := 0] else map[0 := 0, 1 := 1];
    var sent := if submitted == 0 then {} else if submitted == 1 then {0} else {0, 1};
    System(
      Some(0), waiting, [Call([0, 1], chans, [], None, stage)], 2,
      chans, [None, None][..registered], [0, 0][..registered], map[], sent, {}, {}, 0)
  }

  lemma TwoPartsBegin()
    ensures Enabled(INITIAL, Begin(2)) && Next(INITIAL, Begin(2)) == TwoParts(0, 0, Registering)
  {
    assert NewParts(0, 2) == [0, 1];
  }

  lemma TwoPartsRegister(n: nat)
    requires n < 2
    ensures var s, t := TwoParts(n, n, Registering), TwoParts(n + 1, n, Registered);
      Enabled(s, Register) && Next(s, Register) == t
  {
    var s, t := TwoParts(n, n, Registering), TwoParts(n + 1, n, Registered);
    assert [0, 1][..n + 1] == [0, 1][..n] + [n];
    assert t.buffer == s.buffer + [None] && t.sent == s.sent + [0];
    assert Next(s, Register).calls == t.calls;
  }

  lemma TwoPartsSubmit(n: nat)
    requires n < 2
    ensures var s, t := TwoParts(n + 1, n, Registered), TwoParts(n + 1, n + 1, Submitting);
      Enabled(s, Submit) && Next(s, Submit) == t
  {
  }

  lemma TwoPartsSubmitted(n: nat)
    requires 0 < n <= 2
    ensures var s, t := TwoParts(n, n, Submitting), TwoParts(n, n, Registering);
      Enabled(s, SubmitReturns) && Next(s, SubmitReturns) == t
  {
  }

  lemma SecondSubmitFails()
    ensures var u := TwoParts(2, 2, Submitting);
      && Enabled(u, SubmitFails)
      && Next(u, SubmitFails).sendMu == None && Next(u, SubmitFails).waitChs == map[0 := 0]
  {
    var u := TwoParts(2, 2, Submitting);
    assert u.calls[0].parts[1..] == [1] && |u.calls[0].chans| == 2;
  }

  lemma Extend(es: seq<Event>, states: seq<System>, e: Event, t: System)
    returns (es': seq<Event>, states': seq<System>)
    requires IsRun(es, states) && Enabled(states[|es|], e) && Next(states[|es|], e) == t
    ensures IsRun(es', states') && es' == es + [e] && states'[|es'|] == t
  {
    es', states' := es + [e], states + [t];
  }

  /** A run of a call that has just handed over part `n` of its two. */
  lemma {:induction false} TwoPartsRun(n: nat) returns (es: seq<Event>, states: seq<System>)
    requires n < 2
    ensures IsRun(es, states) && states[|es|] == TwoParts(n + 1, n + 1, Submitting)
    decreases n, 1
  {
    es, states := RegisteringRun(n);
    TwoPartsRegister(n);
    es, states := Extend(es, states, Register, TwoParts(n + 1, n, Registered));
    TwoPartsSubmit(n);
    es, states := Extend(es, states, Submit, TwoParts(n + 1, n + 1, Submitting));
  }

  lemma {:induction false} RegisteringRun(n: nat) returns (es: seq<Event>, states: seq<System>)
    requires n < 2
    ensures IsRun(es, states) && states[|es|] == TwoParts(n, n, Registering)
    decreases n, 0
  {
    if n == 0 {
      TwoPartsBegin();
      es, states := Extend([], [INITIAL], Begin(2), TwoParts(n, n, Registering));
    } else {
      es, states := TwoPartsRun(n - 1);
      TwoPartsSubmitted(n);
      es, states := Extend(es, states, SubmitReturns, TwoParts(n, n, Registering));
    }
  }

  /** A run that leaves a part behind: of two parts the second submit fails before the first is answered. */
  lemma FirstPartStaysBehind() returns (es: seq<Event>, states: seq<System>)
    ensures IsRun(es, states) && es != [] && es[|es| - 1].SubmitFails?
    ensures states[|es|].sendMu == None && states[|es|].waitChs == map[0 := 0]
  {
    es, states := TwoPartsRun(1);
    var u := states[|es|];
    SecondSubmitFails();
    es, states := Extend(es, states, SubmitFails, Next(u, SubmitFails));
  }
}
