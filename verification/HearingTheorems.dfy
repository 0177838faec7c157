/** What connections and runs of them read and hear: every frame accounted for, in
    arrival order, whether the connection that read it succeeded or failed. */
module HearingTheorems {
  import opened Wrappers
  import opened MachineInts
  import opened Sequences
  import opened MessageKinds
  import opened Errors
  import opened Messages
  import opened Handshake
  import opened SessionModel
  import opened LoopTheorems
  import opened SessionTheorems
  import opened RunTheorems

  // ---- hearing effects one after another ----

  lemma {:induction false} HeardConcat(a: seq<Effect>, b: seq<Effect>)
    ensures NoticesOf(a + b) == NoticesOf(a) + NoticesOf(b)
    ensures CallsOf(a + b) == CallsOf(a) + CallsOf(b)
  {
    if b == [] {
      AppendNothing(a);
    } else {
      var init := b[..|b| - 1];
      var last := b[|b| - 1];
      HeardConcat(a, init);
      assert (a + b)[..|a + b| - 1] == a + init && (a + b)[|a + b| - 1] == last;
      Regroup(NoticesOf(a), NoticesOf(init), last.Notices());
      Regroup(CallsOf(a), CallsOf(init), last.Calls());
    }
  }

  lemma HeardAfterBoth(heard: Heard, a: seq<Effect>, b: seq<Effect>)
    ensures HeardAfter(HeardAfter(heard, a), b) == HeardAfter(heard, a + b)
  {
    HeardConcat(a, b);
    Regroup(heard.notices, NoticesOf(a), NoticesOf(b));
    Regroup(heard.calls, CallsOf(a), CallsOf(b));
  }

  // ---- refused client ids ----

  function NoticeIn(platform: Platform, v: Int32, body: Bytes): Notice {
    NoticeOf(platform, ParseRawMessage(platform.decodeText, body, v))
  }

  /** A frame that refuses the client id: an error with code 326. */
  predicate IsRefusal(platform: Platform, v: Int32, read: ReadOutcome) {
    && read.Frame?
    && MessageKind(ParseRawMessage(platform.decodeText, read.body, v)) == Kind.Error
    && NoticeIn(platform, v, read.body).code == 326
  }

  /** A refusal's effect carries its notice; no other effect carries a notice with 326. */
  lemma RefusalEffect(setup: Setup, v: Int32, read: ReadOutcome)
    ensures var e := EffectOf(Reading(setup, v), read);
            && (e.Refused? <==> IsRefusal(setup.platform, v, read))
            && (e.Refused? ==> e.notice == NoticeIn(setup.platform, v, read.body))
            && (e.Told? ==> e.notice.code != 326)
  {
    if read.Frame? {
      FrameLaws(setup.platform, setup.installed, v, ParseRawMessage(setup.platform.decodeText, read.body, v));
    }
  }

  ghost predicate NoneIs326(notices: seq<Notice>) {
    forall j :: 0 <= j < |notices| ==> notices[j].code != 326
  }

  lemma {:induction false} OtherNotices(effects: seq<Effect>)
    requires forall i :: 0 <= i < |effects| ==>
               !effects[i].Refused? && (effects[i].Told? ==> effects[i].notice.code != 326)
    ensures NoneIs326(NoticesOf(effects))
  {
    if effects == [] {
    } else {
      OtherNotices(effects[..|effects| - 1]);
    }
  }

  /** How a refusal shows in what is read and told, and in the result: it is the last
      frame read, its notice is the last told and the error returned, and no other notice
      has code 326; and without a refusal none has. */
  ghost predicate RefusalRule<T>(setup: Setup, v: Int32, frames: seq<ReadOutcome>, told: seq<Notice>,
                                 result: Result<T, Error>)
  {
    if exists i :: 0 <= i < |frames| && IsRefusal(setup.platform, v, frames[i]) then
      && IsRefusal(setup.platform, v, frames[|frames| - 1])
      && (forall i :: 0 <= i < |frames| - 1 ==> !IsRefusal(setup.platform, v, frames[i]))
      && var notice := NoticeIn(setup.platform, v, frames[|frames| - 1].body);
         && result == Failure(NoticeError(notice))
         && |told| > 0 && told[|told| - 1] == notice && NoneIs326(told[..|told| - 1])
    else NoneIs326(told)
  }

  /** A connection's reads behind the reply, as effects, and the result they settle. */
  ghost predicate Concludes<T>(effects: seq<Effect>, result: Result<T, Error>) {
    if result.Success? then ShortestStop(effects)
    else effects != [] ==> FirstEnd(effects) && effects[|effects| - 1].Yield() == Failure(result.error)
  }

  lemma RefusedEffectConcludes<T>(effects: seq<Effect>, i: nat, result: Result<T, Error>)
    requires Concludes(effects, result) && i < |effects| && effects[i].Refused?
    requires forall j :: 0 <= j < |effects| && effects[j].Told? ==> effects[j].notice.code != 326
    ensures i == |effects| - 1 && forall j :: 0 <= j < i ==> !effects[j].Refused?
    ensures result == Failure(NoticeError(effects[i].notice))
    ensures var told := NoticesOf(effects);
            && told != [] && told[|told| - 1] == effects[i].notice && NoneIs326(told[..|told| - 1])
  {
    RefusalIsLast(effects, i);
    forall j | 0 <= j < i
      ensures !effects[j].Refused?
    {
      if effects[j].Refused? {
        RefusalIsLast(effects, j);
      }
    }
    OtherNotices(effects[..i]);
    var told := NoticesOf(effects);
    assert told[..|told| - 1] == NoticesOf(effects[..i]);
  }

  lemma RefusalConcludes<T>(setup: Setup, v: Int32, frames: seq<ReadOutcome>, result: Result<T, Error>)
    requires Concludes(EffectsOf(Reading(setup, v), frames), result)
    ensures RefusalRule(setup, v, frames, NoticesOf(EffectsOf(Reading(setup, v), frames)), result)
  {
    var effects := EffectsOf(Reading(setup, v), frames);
    RefusalEffects(setup, v, frames);
    if i :| 0 <= i < |frames| && IsRefusal(setup.platform, v, frames[i]) {
      RefusedEffectConcludes(effects, i, result);
    } else {
      OtherNotices(effects);
    }
  }

  lemma RefusalEffects(setup: Setup, v: Int32, frames: seq<ReadOutcome>)
    ensures var effects := EffectsOf(Reading(setup, v), frames);
            forall i :: 0 <= i < |frames| ==>
              && (effects[i].Refused? <==> IsRefusal(setup.platform, v, frames[i]))
              && (effects[i].Refused? ==> effects[i].notice == NoticeIn(setup.platform, v, frames[i].body))
              && (effects[i].Told? ==> effects[i].notice.code != 326)
  {
    forall i | 0 <= i < |frames|
      ensures var e := EffectOf(Reading(setup, v), frames[i]);
              && (e.Refused? <==> IsRefusal(setup.platform, v, frames[i]))
              && (e.Refused? ==> e.notice == NoticeIn(setup.platform, v, frames[i].body))
              && (e.Told? ==> e.notice.code != 326)
    {
      RefusalEffect(setup, v, frames[i]);
    }
  }

  /** A refused client id ends the account-info loop as that refusal: nothing is read or
      told after it, and it alone is told with code 326, once. */
  lemma RefusalEndsLoop(setup: Setup, v: Int32, peer: Peer, heard: Heard) returns (n: nat)
    ensures var r := ReceiveLoop(Reading(setup, v), peer, heard, NO_ACCOUNT_INFO, 0);
            && ReadExactly(Reading(setup, v), peer, heard, r, n)
            && RefusalRule(setup, v, FirstReads(peer.inbound, n), r.heard.notices[|heard.notices|..], r.result)
  {
    var reading := Reading(setup, v);
    var r := ReceiveLoop(reading, peer, heard, NO_ACCOUNT_INFO, 0);
    n := LoopMeaning(reading, peer, heard);
    RefusalConcludes(setup, v, FirstReads(peer.inbound, n), r.result);
    assert r.heard.notices[|heard.notices|..] == NoticesOf(FirstEffects(reading, peer, n));
  }

  // ---- one connection ----

  /** From `before` to `after` it read `n` frames, and heard what they hold in order. */
  ghost predicate Hears(setup: Setup, before: Session, after: Session, effects: seq<Effect>,
                        result: Result<(), Error>)
  {
    && |effects| <= MOST_FRAMES
    && effects == FirstEffects(Reading(setup, after.metadata.serverVersion), before.peer, |effects|)
    && after.peer.inbound == Drop(before.peer.inbound, |effects|)
    && after.heard == HeardAfter(before.heard, effects)
    && Concludes(effects, result)
  }

  lemma HearsNothing(setup: Setup, s: Session, error: Error)
    ensures Hears(setup, s, s, [], Failure(error))
  {
    AppendNothing(s.heard.notices);
    AppendNothing(s.heard.calls);
  }

  lemma ReceiveHears(setup: Setup, s: Session) returns (effects: seq<Effect>)
    ensures Hears(setup, s, ReceiveStep(setup, s).session, effects, ReceiveStep(setup, s).result)
    ensures effects != []
  {
    var reading := Reading(setup, s.metadata.serverVersion);
    var n := LoopMeaning(reading, s.peer, s.heard);
    effects := FirstEffects(reading, s.peer, n);
  }

  lemma AfterStartHears(setup: Setup, started: Outcome) returns (effects: seq<Effect>)
    ensures var o := AfterStart(setup, started); Hears(setup, started.session, o.session, effects, o.result)
    ensures effects != [] <==> started.result.Success?
  {
    if started.result.Success? {
      effects := ReceiveHears(setup, started.session);
    } else {
      effects := [];
      HearsNothing(setup, started.session, started.result.error);
    }
  }

  lemma AfterHandshakeHears(setup: Setup, shaken: Outcome) returns (effects: seq<Effect>)
    ensures var o := AfterHandshake(setup, shaken); Hears(setup, shaken.session, o.session, effects, o.result)
    ensures effects != [] <==> MayStart(shaken) && Writable(shaken.session.peer, 1)
  {
    if MayStart(shaken) {
      effects := AfterStartHears(setup, StartApiStep(setup, shaken.session));
    } else {
      effects := [];
      HearsNothing(setup, shaken.session, AfterHandshake(setup, shaken).result.error);
    }
  }

  /** The handshake takes the reply off the peer, unless it could not greet it. */
  lemma HandshakeHears(setup: Setup, s: Session) returns (replies: nat)
    ensures var after := HandshakeStep(setup, s).session;
            after.peer.inbound == Drop(s.peer.inbound, replies) && after.heard == s.heard
    ensures replies == if Writable(s.peer, 1) then 1 else 0
  {
    replies := if s.peer.Write(setup.greeting).0.Success? then 1 else 0;
  }

  /** What a call read: the reply or not, and the frames behind it by their effects. */
  datatype Trace = Trace(replies: nat, effects: seq<Effect>) {
    function Reads(): nat {
      replies + |effects|
    }
  }

  /** The frames that a call with this trace read behind the reply. */
  function FramesOf(before: Peer, t: Trace): seq<ReadOutcome> {
    FirstReads(Drop(before.inbound, t.replies), |t.effects|)
  }

  /** A call's trace: the frames it consumed and no others, what was heard of them, in
      order, and how they settle the result. The reply is read exactly when a socket is
      open and greeted; frames behind it exactly when the peer also welcomes the client
      and StartApi is written. What stops a call before that is its result. */
  ghost predicate IsTrace(setup: Setup, call: Call, before: Session, after: Session, result: Result<(), Error>,
                          t: Trace)
  {
    && t.replies == (if Opens(call, before.peer) && Writable(before.peer, 1) then 1 else 0)
    && |t.effects| <= MOST_FRAMES
    && (t.effects != [] <==>
          Opens(call, before.peer) && Writable(before.peer, 2) && Welcomes(setup.platform, before.peer.inbound))
    && (CallError(setup, call, before.peer).Some? ==>
          result == Failure(CallError(setup, call, before.peer).value))
    && t.effects == EffectsOf(Reading(setup, after.metadata.serverVersion), FramesOf(before.peer, t))
    && after.peer.inbound == Drop(before.peer.inbound, t.Reads())
    && after.heard == HeardAfter(before.heard, t.effects)
    && Concludes(t.effects, result)
    && RefusalRule(setup, after.metadata.serverVersion, FramesOf(before.peer, t), NoticesOf(t.effects), result)
  }

  lemma EstablishHears(setup: Setup, s: Session) returns (t: Trace)
    ensures IsTrace(setup, EstablishCall, s, Establish(setup, s).session, Establish(setup, s).result, t)
  {
    var shaken := HandshakeStep(setup, s);
    var replies := HandshakeHears(setup, s);
    var effects := AfterHandshakeHears(setup, shaken);
    t := Trace(replies, effects);
    var o := Establish(setup, s);
    var v := o.session.metadata.serverVersion;
    TraceOf(Reading(setup, v), s.peer, shaken.session.peer, o.session.peer, t);
    RefusalConcludes(setup, v, FramesOf(s.peer, t), o.result);
    MayStartIff(setup, s);
    WritableAgain(s.peer, shaken.session.peer);
    EstablishFailsEarly(setup, s);
  }

  lemma TraceOf(reading: Bytes -> Effect, before: Peer, shaken: Peer, after: Peer, t: Trace)
    requires shaken.inbound == Drop(before.inbound, t.replies)
    requires t.effects == FirstEffects(reading, shaken, |t.effects|)
    requires after.inbound == Drop(shaken.inbound, |t.effects|)
    ensures t.effects == EffectsOf(reading, FramesOf(before, t))
    ensures after.inbound == Drop(before.inbound, t.Reads())
  {
    DropDrop(before.inbound, t.replies, |t.effects|);
  }

  // ---- runs ----

  /** What a trace is of: the frames and writes to come, and what has been heard. */
  ghost predicate SameStart(a: Session, b: Session) {
    a.peer.inbound == b.peer.inbound && a.peer.writes == b.peer.writes && a.heard == b.heard
  }

  lemma UnopenedHears(setup: Setup, call: Call, before: Session, after: Session)
    requires !Opens(call, before.peer) && SameStart(before, after)
    ensures IsTrace(setup, call, before, after, Failure(ConnectionFailed), Trace(0, []))
  {
    AppendNothing(before.heard.notices);
    AppendNothing(before.heard.calls);
  }

  lemma OpenedHears(setup: Setup, call: Call, before: Session, open: Session, o: Outcome, t: Trace)
    requires Opens(call, before.peer) && SameStart(before, open)
    requires IsTrace(setup, EstablishCall, open, o.session, o.result, t)
    ensures IsTrace(setup, call, before, o.session, o.result, t)
  {
  }

  lemma PerformHears(setup: Setup, call: Call, s: Session) returns (t: Trace)
    ensures var o := Perform(setup, call, s); IsTrace(setup, call, s, o.session, o.result, t)
  {
    PerformOutcome(setup, call, s);
    if !Opens(call, s.peer) {
      t := Trace(0, []);
      UnopenedHears(setup, call, s, Perform(setup, call, s).session);
    } else {
      var open := if call.EstablishCall? then s else Reset(setup, OnOpenSocket(s));
      t := EstablishHears(setup, open);
      OpenedHears(setup, call, s, open, Establish(setup, open), t);
    }
  }

  function AllReads(traces: seq<Trace>): nat {
    if traces == [] then 0 else AllReads(traces[..|traces| - 1]) + traces[|traces| - 1].Reads()
  }

  function AllReplies(traces: seq<Trace>): nat {
    if traces == [] then 0 else AllReplies(traces[..|traces| - 1]) + traces[|traces| - 1].replies
  }

  function AllEffects(traces: seq<Trace>): seq<Effect> {
    if traces == [] then [] else AllEffects(traces[..|traces| - 1]) + traces[|traces| - 1].effects
  }

  /** Each call of a run has its trace, between the sessions before and after it. */
  ghost predicate AreTraces(setup: Setup, calls: seq<Call>, s: Session, traces: seq<Trace>) {
    && |traces| == |calls| && |Run(setup, calls, s).0| == |calls|
    && forall i :: 0 <= i < |calls| ==>
         IsTrace(setup, calls[i], Before(setup, calls, s, i), Before(setup, calls, s, i + 1),
                 Run(setup, calls, s).0[i], traces[i])
  }

  lemma TracesGrow(setup: Setup, calls: seq<Call>, s: Session, traces: seq<Trace>, t: Trace)
    requires calls != []
    requires AreTraces(setup, calls[..|calls| - 1], s, traces)
    requires var before := Before(setup, calls, s, |calls| - 1);
             var o := Perform(setup, calls[|calls| - 1], before);
             IsTrace(setup, calls[|calls| - 1], before, o.session, o.result, t)
    ensures AreTraces(setup, calls, s, traces + [t])
  {
    var m := |calls| - 1;
    var results, all := Run(setup, calls, s).0, traces + [t];
    RunTo(setup, calls, s, m);
    RunGrows(setup, calls, s);
    forall i | 0 <= i < |calls|
      ensures IsTrace(setup, calls[i], Before(setup, calls, s, i), Before(setup, calls, s, i + 1), results[i], all[i])
    {
      if i < m {
        assert IsTrace(setup, calls[..m][i], Before(setup, calls[..m], s, i), Before(setup, calls[..m], s, i + 1),
                       Run(setup, calls[..m], s).0[i], traces[i]);
      }
    }
  }

  lemma RunGrows(setup: Setup, calls: seq<Call>, s: Session)
    requires calls != []
    ensures var m := |calls| - 1;
            var o := Perform(setup, calls[m], Before(setup, calls, s, m));
            && Run(setup, calls, s).0 == Run(setup, calls[..m], s).0 + [o.result]
            && Before(setup, calls, s, |calls|) == o.session
  {
    assert calls[..|calls|] == calls;
  }

  /** Over a run each call has a trace, one begins where the other ended, and what is
      heard is what their frames hold, in order: no frame is read twice or skipped
      between calls, and none read by a call that failed is forgotten. */
  lemma {:induction false} RunHears(setup: Setup, calls: seq<Call>, s: Session) returns (traces: seq<Trace>)
    ensures AreTraces(setup, calls, s, traces)
    ensures Run(setup, calls, s).1.peer.inbound == Drop(s.peer.inbound, AllReads(traces))
    ensures Run(setup, calls, s).1.heard == HeardAfter(s.heard, AllEffects(traces))
  {
    if calls == [] {
      traces := [];
      AppendNothing(s.heard.notices);
      AppendNothing(s.heard.calls);
    } else {
      var m := |calls| - 1;
      var earlier := RunHears(setup, calls[..m], s);
      var before := Run(setup, calls[..m], s).1;
      var t := PerformHears(setup, calls[m], before);
      TracesGrow(setup, calls, s, earlier, t);
      TotalsGrow(s, earlier, before, t, Perform(setup, calls[m], before).session);
      traces := earlier + [t];
    }
  }

  /** One more trace adds its frames to what was read and heard. */
  lemma TotalsGrow(s: Session, traces: seq<Trace>, before: Session, t: Trace, after: Session)
    requires before.peer.inbound == Drop(s.peer.inbound, AllReads(traces))
    requires before.heard == HeardAfter(s.heard, AllEffects(traces))
    requires after.peer.inbound == Drop(before.peer.inbound, t.Reads())
    requires after.heard == HeardAfter(before.heard, t.effects)
    ensures after.peer.inbound == Drop(s.peer.inbound, AllReads(traces + [t]))
    ensures after.heard == HeardAfter(s.heard, AllEffects(traces + [t]))
  {
    assert (traces + [t])[..|traces|] == traces;
    DropDrop(s.peer.inbound, AllReads(traces), t.Reads());
    HeardAfterBoth(s.heard, AllEffects(traces), t.effects);
  }

  lemma {:induction false} ReadsAreRepliesAndEffects(traces: seq<Trace>)
    ensures AllReads(traces) == AllReplies(traces) + |AllEffects(traces)|
  {
    if traces == [] {
    } else {
      ReadsAreRepliesAndEffects(traces[..|traces| - 1]);
    }
  }

  /** Conservation over whole runs: what was read is the replies, the account data, one
      new notice or callback each, the frames dropped, and the reads that ended a call. */
  lemma RunConserves(setup: Setup, calls: seq<Call>, s: Session) returns (traces: seq<Trace>)
    ensures AreTraces(setup, calls, s, traces)
    ensures var after := Run(setup, calls, s).1;
            var effects := AllEffects(traces);
            && after.peer.inbound == Drop(s.peer.inbound, AllReads(traces))
            && after.heard == HeardAfter(s.heard, effects)
            && AllReads(traces) == AllReplies(traces)
                 + Count(effects, (e: Effect) => e.NextId? || e.Accounts?)
                 + (|after.heard.notices| - |s.heard.notices|) + (|after.heard.calls| - |s.heard.calls|)
                 + Count(effects, (e: Effect) => e.Dropped?) + Count(effects, (e: Effect) => e.Fatal?)
  {
    traces := RunHears(setup, calls, s);
    ReadsAreRepliesAndEffects(traces);
    EffectsConserved(AllEffects(traces));
  }
}
