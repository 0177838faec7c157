/** Safety over whole runs: any sequence of connections and reconnections, each
    with whatever result. */
module RunTheorems {
  import opened Wrappers
  import opened Errors
  import opened Sequences
  import opened MachineInts
  import opened SessionModel
  import opened SessionTheorems

  // ---- what a run sends ----

  function Concat(parts: seq<Bytes>): Bytes {
    if parts == [] then [] else Concat(parts[..|parts| - 1]) + parts[|parts| - 1]
  }

  /** What a call sends when the peer's writes all succeed: nothing if no socket opens,
      the version prefix to a peer that does not welcome the client, and to one that
      does the prefix and StartApi. */
  function WholeSend(setup: Setup, call: Call, before: Peer): Bytes {
    if Opens(call, before) then WholeHello(setup, before.inbound) else []
  }

  /** The error of a call that reads no frame of the account-info loop. */
  function CallError(setup: Setup, call: Call, before: Peer): Option<Error> {
    if Opens(call, before) then EarlyError(setup.platform, before) else Some(ConnectionFailed)
  }

  /** How many writes a call makes. */
  function CallWrites(setup: Setup, call: Call, before: Peer): (n: nat)
    ensures n <= 2
  {
    if Opens(call, before) then WritesMade(setup.platform, before) else 0
  }

  /** What one call sent: the beginning of what it may send, and all of it when the
      writes it makes succeed; and what those writes are. */
  ghost predicate IsPart(setup: Setup, call: Call, part: Bytes, before: Peer, after: Peer) {
    && after.sent == before.sent + part
    && part <= WholeSend(setup, call, before)
    && after.writes == Drop(before.writes, CallWrites(setup, call, before))
    && (Writable(before, CallWrites(setup, call, before)) ==> part == WholeSend(setup, call, before))
  }

  lemma SentPart(before: Bytes, after: Bytes, all: Bytes) returns (part: Bytes)
    requires SendsWithin(before, after, all)
    ensures after == before + part && part <= all
    ensures after == before + all ==> part == all
  {
    part := after[|before|..];
  }

  lemma EstablishPart(setup: Setup, s: Session) returns (part: Bytes)
    ensures IsPart(setup, EstablishCall, part, s.peer, Establish(setup, s).session.peer)
  {
    EstablishSendsWithinHello(setup, s);
    part := SentPart(s.peer.sent, Establish(setup, s).session.peer.sent, WholeHello(setup, s.peer.inbound));
    EstablishWrites(setup, s);
    if Writable(s.peer, WritesMade(setup.platform, s.peer)) {
      EstablishSends(setup, s);
    }
  }

  lemma PerformPart(setup: Setup, call: Call, s: Session) returns (part: Bytes)
    ensures IsPart(setup, call, part, s.peer, Perform(setup, call, s).session.peer)
  {
    PerformOutcome(setup, call, s);
    if !Opens(call, s.peer) {
      part := [];
      AppendNothing(s.peer.sent);
    } else {
      part := EstablishPart(setup, if call.EstablishCall? then s else Reset(setup, OnOpenSocket(s)));
    }
  }

  /** The sessions before and after each call of a run. */
  function Before(setup: Setup, calls: seq<Call>, s: Session, i: nat): Session
    requires i <= |calls|
  {
    Run(setup, calls[..i], s).1
  }

  lemma RunTo(setup: Setup, calls: seq<Call>, s: Session, m: nat)
    requires m <= |calls|
    ensures forall i :: 0 <= i <= m ==> Before(setup, calls[..m], s, i) == Before(setup, calls, s, i)
    ensures Before(setup, calls, s, |calls|) == Run(setup, calls, s).1
  {
    forall i | 0 <= i <= m
      ensures Before(setup, calls[..m], s, i) == Before(setup, calls, s, i)
    {
      assert calls[..m][..i] == calls[..i];
    }
    assert calls[..|calls|] == calls;
  }

  /** A run sends one part for each call and nothing between them. Each is the beginning
      of what that call may send to the peer it finds, so StartApi goes to welcoming peers
      alone; each is the whole of it when the writes its call makes succeed, whatever
      becomes of the writes of other calls. */
  lemma {:induction false} RunSends(setup: Setup, calls: seq<Call>, s: Session) returns (parts: seq<Bytes>)
    ensures |parts| == |calls|
    ensures Run(setup, calls, s).1.peer.sent == s.peer.sent + Concat(parts)
    ensures forall i :: 0 <= i < |calls| ==>
              IsPart(setup, calls[i], parts[i], Before(setup, calls, s, i).peer, Before(setup, calls, s, i + 1).peer)
  {
    if calls == [] {
      parts := [];
      AppendNothing(s.peer.sent);
    } else {
      var m := |calls| - 1;
      var earlier := RunSends(setup, calls[..m], s);
      var before := Run(setup, calls[..m], s).1;
      var part := PerformPart(setup, calls[m], before);
      parts := earlier + [part];
      assert parts[..|earlier|] == earlier;
      Regroup(s.peer.sent, Concat(earlier), part);
      RunTo(setup, calls, s, m);
    }
  }

  // ---- what a run keeps ----

  lemma ReceiveKeepsClient(setup: Setup, s: Session)
    ensures ReceiveStep(setup, s).session.metadata.clientId == s.metadata.clientId
    ensures ReceiveStep(setup, s).session.metadata.serverVersion == s.metadata.serverVersion
  {
  }

  lemma AfterStartKeepsClient(setup: Setup, started: Outcome)
    ensures AfterStart(setup, started).session.metadata.clientId == started.session.metadata.clientId
    ensures AfterStart(setup, started).session.metadata.serverVersion == started.session.metadata.serverVersion
  {
    ReceiveKeepsClient(setup, started.session);
  }

  lemma AfterHandshakeKeepsClient(setup: Setup, shaken: Outcome)
    ensures AfterHandshake(setup, shaken).session.metadata.clientId == shaken.session.metadata.clientId
    ensures AfterHandshake(setup, shaken).result.Success? ==>
              AfterHandshake(setup, shaken).session.metadata.serverVersion >= 210
  {
    AfterStartKeepsClient(setup, StartApiStep(setup, shaken.session));
  }

  lemma HandshakeKeepsClient(setup: Setup, s: Session)
    ensures HandshakeStep(setup, s).session.metadata.clientId == s.metadata.clientId
  {
  }

  lemma EstablishKeepsClient(setup: Setup, s: Session)
    ensures Establish(setup, s).session.metadata.clientId == s.metadata.clientId
    ensures Establish(setup, s).result.Success? ==>
              Establish(setup, s).session.metadata.serverVersion >= 210
  {
    HandshakeKeepsClient(setup, s);
    AfterHandshakeKeepsClient(setup, HandshakeStep(setup, s));
  }

  lemma PerformKeepsClient(setup: Setup, call: Call, s: Session)
    requires s.metadata.clientId == setup.clientId
    ensures Perform(setup, call, s).session.metadata.clientId == setup.clientId
    ensures Perform(setup, call, s).result.Success? ==>
              Perform(setup, call, s).session.metadata.serverVersion >= 210
  {
    match call
    case EstablishCall => EstablishKeepsClient(setup, s);
    case ReconnectCall =>
      ReconnectOutcome(setup, s);
      EstablishKeepsClient(setup, Reset(setup, OnOpenSocket(s)));
  }

  /** Through any run the metadata names the client, and whenever the last call
      succeeded the session's version passes the gate. */
  lemma {:induction false} RunKeepsClient(setup: Setup, calls: seq<Call>, s: Session)
    requires s.metadata.clientId == setup.clientId
    ensures var (results, after) := Run(setup, calls, s);
            && |results| == |calls|
            && after.metadata.clientId == setup.clientId
            && (calls != [] && results[|calls| - 1].Success? ==> after.metadata.serverVersion >= 210)
  {
    if calls == [] {
    } else {
      var before := Run(setup, calls[..|calls| - 1], s).1;
      RunKeepsClient(setup, calls[..|calls| - 1], s);
      PerformKeepsClient(setup, calls[|calls| - 1], before);
    }
  }
}
