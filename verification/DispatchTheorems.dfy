/** What the startup callback and the notice sink are given of each kind of frame, down
    to the payload. */
module DispatchTheorems {
  import opened Wrappers
  import opened MachineInts
  import opened Decimal
  import opened MessageKinds
  import opened Errors
  import opened Messages
  import opened Handshake
  import opened SessionModel
  import opened LoopTheorems
  import opened RunTheorems
  import opened HearingTheorems

  // ---- one frame ----

  /** With a callback, a typed frame that decodes is handed to it with its payload, in the
      variant of its kind. */
  lemma TypedFrames(platform: Platform, v: Int32, m: Message, p: Payload)
    requires platform.decodePayload(v, m) == Success(p)
    ensures var e, kind := FrameEffect(platform, true, v, m), MessageKind(m);
            && (kind == OpenOrder ==> e == Called(OpenOrderMessage(p)))
            && (kind == OrderStatus ==> e == Called(OrderStatusMessage(p)))
            && (kind == AccountValue ==> e == Called(AccountUpdateMessage(AccountValueUpdate(p))))
            && (kind == PortfolioValue ==> e == Called(AccountUpdateMessage(PortfolioValueUpdate(p))))
            && (kind == AccountUpdateTime ==> e == Called(AccountUpdateMessage(UpdateTime(p))))
            && (kind == ExecutionData ==> e == Called(ExecutionMessage(p)))
            && (kind == CommissionsReport ==> e == Called(CommissionReportMessage(p)))
            && (kind == CompletedOrder ==> e == Called(CompletedOrderMessage(p)))
  {
  }

  /** The kinds whose frames carry a payload for the callback. */
  predicate HasPayload(kind: Kind) {
    || kind == OpenOrder || kind == OrderStatus || kind == AccountValue || kind == PortfolioValue
    || kind == AccountUpdateTime || kind == ExecutionData || kind == CommissionsReport || kind == CompletedOrder
  }

  /** One that does not decode becomes a notice with code -4, its kind and the cause. */
  lemma UndecodableFrames(platform: Platform, v: Int32, m: Message, cause: string)
    requires platform.decodePayload(v, m) == Failure(cause) && HasPayload(MessageKind(m))
    ensures FrameEffect(platform, true, v, m)
         == Told(Notice(-4, DecodeFailureText(MessageKind(m), cause), None, []))
  {
  }

  /** Frames without a payload are handed over as the marker of their kind. */
  lemma MarkerFrames(platform: Platform, v: Int32, m: Message)
    ensures var e, kind := FrameEffect(platform, true, v, m), MessageKind(m);
            && (kind == AccountDownloadEnd ==> e == Called(AccountUpdateMessage(End)))
            && (kind == OpenOrderEnd ==> e == Called(OpenOrderEndMessage))
            && (kind == ExecutionDataEnd ==> e == Called(ExecutionDataEndMessage))
            && (kind == CompletedOrdersEnd ==> e == Called(CompletedOrdersEndMessage))
  {
  }

  /** Without a callback all of these are dropped. */
  lemma UnheardFrames(platform: Platform, v: Int32, m: Message)
    requires var kind := MessageKind(m);
             || HasPayload(kind) || kind == AccountDownloadEnd
             || kind == OpenOrderEnd || kind == ExecutionDataEnd || kind == CompletedOrdersEnd
    ensures FrameEffect(platform, false, v, m) == Dropped
  {
  }

  /** A frame of any other kind that is no error and no account data becomes a notice with
      code -3 and its kind, callback or none. */
  lemma UnknownFrames(platform: Platform, installed: bool, v: Int32, m: Message)
    requires MessageKind(m).Shutdown? || MessageKind(m).NotValid? || MessageKind(m).Other?
    ensures FrameEffect(platform, installed, v, m) == Told(Notice(-3, UnknownFrameText(MessageKind(m)), None, []))
  {
  }

  /** A protobuf account frame without a payload gives no value, and is no error. */
  lemma EmptyAccountFrames(platform: Platform, installed: bool, v: Int32, m: Message)
    requires m.isProtobuf && m.rawBytes == None
    ensures MessageKind(m) == NextValidId ==> FrameEffect(platform, installed, v, m) == NextId(None)
    ensures MessageKind(m) == ManagedAccounts ==> FrameEffect(platform, installed, v, m) == Accounts(None)
  {
  }

  /** A next-id frame as text that ends too soon, or whose id is no number, is fatal. */
  lemma MalformedNextId(platform: Platform, installed: bool, v: Int32, m: Message)
    requires MessageKind(m) == NextValidId && !m.isProtobuf
    ensures |m.fields| <= 2 ==> FrameEffect(platform, installed, v, m) == Fatal(Parse(2, [], EndOfMessage(IntField)))
    ensures |m.fields| > 2 && ParseInt32(m.fields[2]) == None ==>
              FrameEffect(platform, installed, v, m) == Fatal(Parse(3, m.fields[2], NotAnInteger))
  {
  }

  /** So is a managed-accounts frame as text that ends too soon. */
  lemma MalformedAccounts(platform: Platform, installed: bool, v: Int32, m: Message)
    requires MessageKind(m) == ManagedAccounts && !m.isProtobuf && |m.fields| <= 2
    ensures FrameEffect(platform, installed, v, m) == Fatal(Parse(2, [], EndOfMessage(StringField)))
  {
  }

  /** A notice is told to the sink, a call is made to the callback, and nothing else is
      heard of any frame. */
  lemma EffectIsHeard(e: Effect)
    ensures e.Notices() == if e.Told? || e.Refused? then [e.notice] else []
    ensures e.Calls() == if e.Called? then [e.message] else []
  {
  }

  // ---- frames of a run ----

  lemma HeardInOrder(effects: seq<Effect>, j: nat)
    requires j < |effects|
    ensures CallsOf(effects) == CallsOf(effects[..j]) + effects[j].Calls() + CallsOf(effects[j + 1..])
    ensures NoticesOf(effects) == NoticesOf(effects[..j]) + effects[j].Notices() + NoticesOf(effects[j + 1..])
  {
    SplitAt(effects, j);
    HeardBetween(effects[..j], effects[j], effects[j + 1..]);
  }

  lemma SplitAt(effects: seq<Effect>, j: nat)
    requires j < |effects|
    ensures effects == effects[..j] + [effects[j]] + effects[j + 1..]
  {
  }

  lemma HeardBetween(front: seq<Effect>, e: Effect, back: seq<Effect>)
    ensures CallsOf(front + [e] + back) == CallsOf(front) + e.Calls() + CallsOf(back)
    ensures NoticesOf(front + [e] + back) == NoticesOf(front) + e.Notices() + NoticesOf(back)
  {
    HeardConcat(front + [e], back);
    HeardGrows(front, e);
  }

  /** The message that a call of a run read as frame `j` behind its reply. */
  function FrameRead(setup: Setup, before: Session, after: Session, t: Trace, j: nat): Message
    requires j < |t.effects| && FramesOf(before.peer, t)[j].Frame?
  {
    ParseRawMessage(setup.platform.decodeText, FramesOf(before.peer, t)[j].body, after.metadata.serverVersion)
  }

  /** In any call of a run, every frame has the effect that its kind and its decoding
      settle, and what it makes heard stands at its place among what the call heard. */
  lemma FrameOfRun(setup: Setup, calls: seq<Call>, s: Session, traces: seq<Trace>, i: nat, j: nat)
    requires AreTraces(setup, calls, s, traces) && i < |calls| && j < |traces[i].effects|
    requires FramesOf(Before(setup, calls, s, i).peer, traces[i])[j].Frame?
    ensures var before, after, t := Before(setup, calls, s, i), Before(setup, calls, s, i + 1), traces[i];
            var m := FrameRead(setup, before, after, t, j);
            var e := t.effects[j];
            && e == FrameEffect(setup.platform, setup.installed, after.metadata.serverVersion, m)
            && after.heard.calls
               == before.heard.calls + (CallsOf(t.effects[..j]) + e.Calls() + CallsOf(t.effects[j + 1..]))
            && after.heard.notices
               == before.heard.notices + (NoticesOf(t.effects[..j]) + e.Notices() + NoticesOf(t.effects[j + 1..]))
  {
    var before, after, t := Before(setup, calls, s, i), Before(setup, calls, s, i + 1), traces[i];
    assert IsTrace(setup, calls[i], before, after, Run(setup, calls, s).0[i], t);
    HeardInOrder(t.effects, j);
  }

  /** Over a whole run with a callback, a typed frame that a call reads, and that decodes,
      reaches the callback with its payload, in its place. */
  lemma TypedFramesOfRun(setup: Setup, calls: seq<Call>, s: Session, traces: seq<Trace>, i: nat, j: nat, p: Payload)
    requires AreTraces(setup, calls, s, traces) && i < |calls| && j < |traces[i].effects|
    requires FramesOf(Before(setup, calls, s, i).peer, traces[i])[j].Frame? && setup.installed
    requires var before, after := Before(setup, calls, s, i), Before(setup, calls, s, i + 1);
             var m := FrameRead(setup, before, after, traces[i], j);
             && setup.platform.decodePayload(after.metadata.serverVersion, m) == Success(p)
             && HasPayload(MessageKind(m))
    ensures var before, after, t := Before(setup, calls, s, i), Before(setup, calls, s, i + 1), traces[i];
            var kind := MessageKind(FrameRead(setup, before, after, t, j));
            var message := match kind
                           case OpenOrder => OpenOrderMessage(p)
                           case OrderStatus => OrderStatusMessage(p)
                           case AccountValue => AccountUpdateMessage(AccountValueUpdate(p))
                           case PortfolioValue => AccountUpdateMessage(PortfolioValueUpdate(p))
                           case AccountUpdateTime => AccountUpdateMessage(UpdateTime(p))
                           case ExecutionData => ExecutionMessage(p)
                           case CommissionsReport => CommissionReportMessage(p)
                           case _ => CompletedOrderMessage(p);
            after.heard.calls
            == before.heard.calls + (CallsOf(t.effects[..j]) + [message] + CallsOf(t.effects[j + 1..]))
  {
    var after := Before(setup, calls, s, i + 1);
    var m := FrameRead(setup, Before(setup, calls, s, i), after, traces[i], j);
    FrameOfRun(setup, calls, s, traces, i, j);
    TypedFrames(setup.platform, after.metadata.serverVersion, m, p);
  }

  /** And one that does not decode reaches the notice sink in its place. */
  lemma UndecodableFramesOfRun(setup: Setup, calls: seq<Call>, s: Session, traces: seq<Trace>, i: nat, j: nat,
                               cause: string)
    requires AreTraces(setup, calls, s, traces) && i < |calls| && j < |traces[i].effects|
    requires FramesOf(Before(setup, calls, s, i).peer, traces[i])[j].Frame? && setup.installed
    requires var before, after := Before(setup, calls, s, i), Before(setup, calls, s, i + 1);
             var m := FrameRead(setup, before, after, traces[i], j);
             && setup.platform.decodePayload(after.metadata.serverVersion, m) == Failure(cause)
             && HasPayload(MessageKind(m))
    ensures var before, after, t := Before(setup, calls, s, i), Before(setup, calls, s, i + 1), traces[i];
            var kind := MessageKind(FrameRead(setup, before, after, t, j));
            var notice := Notice(-4, DecodeFailureText(kind, cause), None, []);
            after.heard.notices
            == before.heard.notices + (NoticesOf(t.effects[..j]) + [notice] + NoticesOf(t.effects[j + 1..]))
  {
    var after := Before(setup, calls, s, i + 1);
    var m := FrameRead(setup, Before(setup, calls, s, i), after, traces[i], j);
    FrameOfRun(setup, calls, s, traces, i, j);
    UndecodableFrames(setup.platform, after.metadata.serverVersion, m, cause);
  }
}
