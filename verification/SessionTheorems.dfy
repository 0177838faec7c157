/** What holds of every connection, every reconnection and every run of them. */
module SessionTheorems {
  import opened Wrappers
  import opened Sequences
  import opened MachineInts
  import opened Ascii
  import opened Decimal
  import opened Framing
  import opened MessageKinds
  import opened Errors
  import opened Messages
  import opened Handshake
  import opened Backoff
  import opened SessionModel
  import opened LoopTheorems

  // ---- a frame's kind and its effect ----

  /** Where a frame goes is settled by its kind, the callback and its decoding. */
  lemma FrameLaws(platform: Platform, installed: bool, serverVersion: Int32, message: Message)
    ensures var e := FrameEffect(platform, installed, serverVersion, message);
            var kind := MessageKind(message);
            && (e.Called? ==> installed && e.message.MessageType() == kind && (IsTyped(kind) || IsMarker(kind)))
            && (e.NextId? ==> kind == NextValidId)
            && (e.Accounts? ==> kind == ManagedAccounts)
            && (e.Fatal? ==> kind == NextValidId || kind == ManagedAccounts)
            && (e.Refused? <==> kind == Kind.Error && NoticeOf(platform, message).code == 326)
            && (kind == Kind.Error ==> (e.Told? || e.Refused?) && e.notice == NoticeOf(platform, message))
            && (kind != Kind.Error && e.Told? ==>
                  e.notice.code
                  == if IsTyped(kind) then -4 else -3)
  {
  }

  /** Typed frames and markers go to the callback, or nowhere without one; a typed frame
      that does not decode, and any kind without a type, becomes a notice. */
  lemma DispatchLaws(platform: Platform, installed: bool, serverVersion: Int32, message: Message)
    ensures var e := FrameEffect(platform, installed, serverVersion, message);
            var kind := MessageKind(message);
            && (e.Dropped? <==> !installed && (IsTyped(kind) || IsMarker(kind)))
            && (installed && IsMarker(kind) ==> e.Called?)
            && (installed && IsTyped(kind) ==> (e.Called? <==> DecodeTyped(platform, serverVersion, message).Success?))
            && (installed && IsTyped(kind) ==> e.Called? || e.Told?)
            && (kind.Shutdown? || kind.NotValid? || kind.Other? ==> e.Told?)
  {
  }

  /** A callback hears more of a frame, but the session learns the same from it. */
  lemma YieldIgnoresCallback(platform: Platform, a: bool, b: bool, serverVersion: Int32, message: Message)
    ensures FrameEffect(platform, a, serverVersion, message).Yield()
         == FrameEffect(platform, b, serverVersion, message).Yield()
  {
  }

  lemma RefusalIsLast(effects: seq<Effect>, i: nat)
    requires ShortestStop(effects) || FirstEnd(effects)
    requires i < |effects| && effects[i].Refused?
    ensures i == |effects| - 1 && FirstEnd(effects)
    ensures NoticesOf(effects) == NoticesOf(effects[..i]) + [effects[i].notice]
    ensures CallsOf(effects) == CallsOf(effects[..i])
  {
    var init := effects[..|effects| - 1];
    assert forall j :: 0 <= j < |init| ==> init[j] == effects[j];
    assert CallsOf(effects) == CallsOf(effects[..i]) + [];
  }

  /** Every frame the loop reads is account data, one notice, one callback, dropped,
      or the error the loop returns; what is heard is heard in arrival order. */
  lemma LoopConserves(reading: Bytes -> Effect, peer: Peer, heard: Heard) returns (n: nat)
    ensures var r := ReceiveLoop(reading, peer, heard, NO_ACCOUNT_INFO, 0);
            var effects := FirstEffects(reading, peer, n);
            && ReadExactly(reading, peer, heard, r, n)
            && n == Count(effects, (e: Effect) => e.NextId? || e.Accounts?)
                  + (|r.heard.notices| - |heard.notices|) + (|r.heard.calls| - |heard.calls|)
                  + Count(effects, (e: Effect) => e.Dropped?) + Count(effects, (e: Effect) => e.Fatal?)
  {
    n := LoopMeaning(reading, peer, heard);
    EffectsConserved(FirstEffects(reading, peer, n));
  }

  // ---- what is sent ----

  /** All that connecting sends: the version prefix, then one StartApi frame. */
  function Hello(setup: Setup): Bytes {
    setup.greeting + setup.start
  }

  lemma HelloIsShort(clientId: Int32)
    ensures |TextBytes(DEFAULT_HANDLER.VersionText())| < TWO_POW_32
    ensures |StartApiBody(clientId)| < TWO_POW_32
  {
    DigitsLength(210, 3);
    DigitsLength(UPDATE_CONFIG, 3);
    assert Pow10(3) == 1000;
    assert Pow128(5) == 0x8_0000_0000;
    assert Pow128(10) == 0x8_0000_0000 * Pow128(5);
    VarintLength(In64Bits(clientId), 10);
  }

  /** The range of versions offered, as text. */
  lemma VersionTextIs()
    ensures DEFAULT_HANDLER.VersionText() == "v210..221"
    ensures TextBytes(DEFAULT_HANDLER.VersionText()) == [0x76, 0x32, 0x31, 0x30, 0x2E, 0x2E, 0x32, 0x32, 0x31]
  {
    assert Digits(2) == "2" && Digits(21) == "21" && Digits(22) == "22";
    assert Digits(210) == "210" && Digits(221) == "221";
    assert DEFAULT_HANDLER.VersionText() == "v210..221";
  }

  /** What a gateway reads of a hello: the bytes `API` and 0, then two frames and no more.
      One holds the text of the version range; the other the StartApi message, which is
      the id 271, the tag 8 and the client's id as a 64-bit varint. */
  lemma HelloReads(platform: Platform, installed: bool, clientId: Int32)
    ensures var hello := Hello(SetupOf(platform, installed, clientId));
            && |hello| >= 4 && hello[..4] == [0x41, 0x50, 0x49, 0]
            && ReadAll(hello[4..])
               == Some([[0x76, 0x32, 0x31, 0x30, 0x2E, 0x2E, 0x32, 0x32, 0x31],
                        [0, 0, 1, 0x0F] + [8] + Varint(In64Bits(clientId))])
  {
    HelloIsShort(clientId);
    VersionTextIs();
    StartApiBodyIs(clientId);
    TwoFramesRead(HANDSHAKE_PREFIX, TextBytes(DEFAULT_HANDLER.VersionText()), StartApiBody(clientId));
  }

  lemma StartApiBodyIs(clientId: Int32)
    ensures StartApiBody(clientId)
         == [0, 0, 1, 0x0F] + [8] + Varint(In64Bits(clientId))
  {
    assert Int32ToBytes(271) == [0, 0, 1, 0x0F];
    Regroup([0, 0, 1, 0x0F], [8], Varint(In64Bits(clientId)));
  }

  /** All bytes of the greeting: those of its frame's length are 0, 0, 0, 9. */
  lemma GreetingIs(platform: Platform, installed: bool, clientId: Int32)
    ensures SetupOf(platform, installed, clientId).greeting
         == [0x41, 0x50, 0x49, 0] + [0, 0, 0, 9] + [0x76, 0x32, 0x31, 0x30, 0x2E, 0x2E, 0x32, 0x32, 0x31]
  {
    VersionTextIs();
    assert BigEndian(9) == [0, 0, 0, 9];
  }

  lemma TwoFramesRead(prefix: Bytes, a: Bytes, b: Bytes)
    requires |prefix| == 4 && |a| < TWO_POW_32 && |b| < TWO_POW_32
    ensures var s := prefix + Framed(a) + Framed(b);
            |s| >= 4 && s[..4] == prefix && ReadAll(s[4..]) == Some([a, b])
  {
    ReadAllWritten([a, b]);
    WriteBoth(a, b);
    var s := prefix + Framed(a) + Framed(b);
    assert s[..4] == prefix && s[4..] == Framed(a) + Framed(b);
  }

  lemma WriteBoth(a: Bytes, b: Bytes)
    ensures WriteAll([a, b]) == Framed(a) + Framed(b)
  {
    assert [a, b][1..] == [b] && [b][1..] == [];
    assert WriteAll([b]) == Framed(b) + [];
  }

  /** The peer's reply parses, passes the version gate and names no unknown zone. */
  predicate Welcomes(platform: Platform, inbound: seq<ReadOutcome>) {
    && inbound != []
    && inbound[0].Frame?
    && var reply := HandshakeReply(FromText(platform.decodeText(inbound[0].body)));
       && reply.Success?
       && reply.value.serverVersion >= 210
       && (match TimeParts(reply.value.serverTime)
           case None => true
           case Some((_, zone)) => platform.findZone(zone).Some?)
  }

  /** The next `n` writes, of the two a connection can make, succeed; past the end of
      the script they do. */
  predicate Writable(peer: Peer, n: nat)
    requires n <= 2
  {
    && (n >= 1 && |peer.writes| >= 1 ==> peer.writes[0].Written?)
    && (n >= 2 && |peer.writes| >= 2 ==> peer.writes[1].Written?)
  }

  /** A session may start exactly when the greeting is written to a peer that welcomes it. */
  lemma MayStartIff(setup: Setup, s: Session)
    ensures MayStart(HandshakeStep(setup, s)) <==> Writable(s.peer, 1) && Welcomes(setup.platform, s.peer.inbound)
    ensures HandshakeStep(setup, s).session.peer.writes == Drop(s.peer.writes, 1)
  {
  }

  lemma WritableAgain(before: Peer, after: Peer)
    requires after.writes == Drop(before.writes, 1)
    ensures Writable(before, 2) <==> Writable(before, 1) && Writable(after, 1)
  {
  }

  lemma ReceiveSendsNothing(setup: Setup, s: Session)
    ensures ReceiveStep(setup, s).session.peer.sent == s.peer.sent
    ensures ReceiveStep(setup, s).session.peer.writes == s.peer.writes
  {
    var n := LoopMeaning(Reading(setup, s.metadata.serverVersion), s.peer, s.heard);
  }

  lemma AfterStartSendsNothing(setup: Setup, started: Outcome)
    ensures AfterStart(setup, started).session.peer.sent == started.session.peer.sent
    ensures AfterStart(setup, started).session.peer.writes == started.session.peer.writes
  {
    ReceiveSendsNothing(setup, started.session);
  }

  lemma AfterHandshakeWrites(setup: Setup, shaken: Outcome)
    ensures AfterHandshake(setup, shaken).session.peer.writes
         == Drop(shaken.session.peer.writes, if MayStart(shaken) then 1 else 0)
  {
    AfterStartSendsNothing(setup, StartApiStep(setup, shaken.session));
  }

  /** How many writes connecting makes: the second only after a greeting that was
      written to a peer that welcomes it. */
  function WritesMade(platform: Platform, peer: Peer): (n: nat)
    ensures n <= 2
  {
    if Writable(peer, 1) && Welcomes(platform, peer.inbound) then 2 else 1
  }

  lemma EstablishWrites(setup: Setup, s: Session)
    ensures Establish(setup, s).session.peer.writes == Drop(s.peer.writes, WritesMade(setup.platform, s.peer))
  {
    MayStartIff(setup, s);
    AfterHandshakeWrites(setup, HandshakeStep(setup, s));
    DropDrop(s.peer.writes, 1, 1);
  }

  /** What connecting sends when its writes succeed. */
  function WholeHello(setup: Setup, inbound: seq<ReadOutcome>): Bytes {
    if Welcomes(setup.platform, inbound) then Hello(setup) else setup.greeting
  }

  /** When the writes it makes succeed, a connection sends the version prefix alone, or
      the prefix and exactly one StartApi frame with the client's id: the latter exactly
      when the peer welcomes it. */
  lemma EstablishSends(setup: Setup, s: Session)
    requires Writable(s.peer, WritesMade(setup.platform, s.peer))
    ensures Establish(setup, s).session.peer.sent == s.peer.sent + WholeHello(setup, s.peer.inbound)
  {
    var shaken := HandshakeStep(setup, s);
    MayStartIff(setup, s);
    WritableAgain(s.peer, shaken.session.peer);
    var a := HandshakeSends(setup, s);
    AfterHandshakeSends(setup, shaken);
    Regroup(s.peer.sent, setup.greeting, setup.start);
    AppendNothing(s.peer.sent + setup.greeting);
  }

  lemma AfterHandshakeSends(setup: Setup, shaken: Outcome)
    requires MayStart(shaken) ==> Writable(shaken.session.peer, 1)
    ensures AfterHandshake(setup, shaken).session.peer.sent
         == shaken.session.peer.sent + if MayStart(shaken) then setup.start else []
  {
    AfterStartSendsNothing(setup, StartApiStep(setup, shaken.session));
  }

  /** What was sent from `before` to `after` is the beginning of `all`. */
  predicate SendsWithin(before: Bytes, after: Bytes, all: Bytes) {
    before <= after && after[|before|..] <= all
  }

  lemma WritePrefix(peer: Peer, packet: Bytes) returns (written: Bytes)
    ensures peer.Write(packet).1.sent == peer.sent + written
    ensures written <= packet
    ensures peer.Write(packet).0.Success? ==> written == packet
  {
    if peer.writes != [] && peer.writes[0].WriteFailed? {
      var accepted := peer.writes[0].accepted;
      written := if accepted <= |packet| then packet[..accepted] else packet;
    } else {
      written := packet;
    }
  }

  lemma HandshakeSends(setup: Setup, s: Session) returns (written: Bytes)
    ensures HandshakeStep(setup, s).session.peer.sent == s.peer.sent + written
    ensures written <= setup.greeting
    ensures HandshakeStep(setup, s).result.Success? || Writable(s.peer, 1) ==> written == setup.greeting
  {
    written := WritePrefix(s.peer, setup.greeting);
  }

  lemma AfterHandshakeSendsWithin(setup: Setup, shaken: Outcome) returns (written: Bytes)
    ensures AfterHandshake(setup, shaken).session.peer.sent == shaken.session.peer.sent + written
    ensures written <= setup.start
    ensures !MayStart(shaken) ==> written == []
  {
    if MayStart(shaken) {
      written := WritePrefix(shaken.session.peer, setup.start);
      AfterStartSendsNothing(setup, StartApiStep(setup, shaken.session));
    } else {
      written := [];
    }
  }

  lemma SendsParts(sent: Bytes, a: Bytes, b: Bytes, x: Bytes, y: Bytes)
    requires a <= x && b <= y && (a == x || b == [])
    ensures SendsWithin(sent, sent + a + b, x + y)
  {
    assert (sent + a + b)[|sent|..] == a + b;
  }

  /** Whatever writes and reads do, a connection sends the beginning of a hello and
      nothing else: never a byte of StartApi before the whole version prefix, never
      one to a peer that has not welcomed it. */
  lemma EstablishSendsWithinHello(setup: Setup, s: Session)
    ensures SendsWithin(s.peer.sent, Establish(setup, s).session.peer.sent, WholeHello(setup, s.peer.inbound))
  {
    var a := HandshakeSends(setup, s);
    var b := AfterHandshakeSendsWithin(setup, HandshakeStep(setup, s));
    MayStartIff(setup, s);
    if Welcomes(setup.platform, s.peer.inbound) {
      SendsParts(s.peer.sent, a, b, setup.greeting, setup.start);
    } else {
      SendsParts(s.peer.sent, a, b, setup.greeting, []);
      AppendNothing(setup.greeting);
    }
  }

  // ---- what a connection leaves of the past ----

  /** Two readings that differ only in what is heard take the same account data. */
  lemma {:induction false} LoopsAgree(a: Bytes -> Effect, b: Bytes -> Effect, p: Peer, q: Peer, h: Heard, g: Heard,
                                      info: AccountInfo, attempts: nat)
    requires attempts <= MAX_ATTEMPTS
    requires forall body :: a(body).Yield() == b(body).Yield()
    requires p.inbound == q.inbound
    ensures var r, t := ReceiveLoop(a, p, h, info, attempts), ReceiveLoop(b, q, g, info, attempts);
            r.result == t.result && r.peer.inbound == t.peer.inbound
    decreases MAX_ATTEMPTS - attempts
  {
    if p.Read().0.Success? {
      var body := p.Read().0.value;
      if a(body).Yield().Success? {
        var merged := Absorb(info, a(body).Yield().value);
        if !Stops(merged, attempts + 1) {
          LoopsAgree(a, b, p.Read().1, q.Read().1, h.Observe(a(body)), g.Observe(b(body)), merged, attempts + 1);
        }
      }
    }
  }

  /** Two setups for the same client of the same code, with or without a callback. */
  ghost predicate SameClient(a: Setup, b: Setup) {
    a.platform == b.platform && a.clientId == b.clientId
  }

  lemma ReadingsAgree(a: Setup, b: Setup, serverVersion: Int32)
    requires SameClient(a, b)
    ensures forall body :: Reading(a, serverVersion)(body).Yield() == Reading(b, serverVersion)(body).Yield()
  {
    forall body: Bytes
      ensures Reading(a, serverVersion)(body).Yield() == Reading(b, serverVersion)(body).Yield()
    {
      YieldIgnoresCallback(a.platform, a.installed, b.installed, serverVersion,
                           ParseRawMessage(a.platform.decodeText, body, serverVersion));
    }
  }

  /** The part of a session that a connection carries forward: the frames to come and
      the metadata. */
  ghost predicate SameFuture(x: Session, y: Session) {
    x.peer.inbound == y.peer.inbound && x.metadata == y.metadata
  }

  lemma ReceivesAgree(a: Setup, b: Setup, x: Session, y: Session)
    requires SameClient(a, b) && SameFuture(x, y)
    ensures ReceiveStep(a, x).result == ReceiveStep(b, y).result
    ensures SameFuture(ReceiveStep(a, x).session, ReceiveStep(b, y).session)
  {
    var v := x.metadata.serverVersion;
    ReadingsAgree(a, b, v);
    LoopsAgree(Reading(a, v), Reading(b, v), x.peer, y.peer, x.heard, y.heard, NO_ACCOUNT_INFO, 0);
  }

  lemma StartsAgree(a: Setup, b: Setup, x: Outcome, y: Outcome)
    requires SameClient(a, b) && SameFuture(x.session, y.session)
    requires AfterStart(a, x).result.Success? && AfterStart(b, y).result.Success?
    ensures SameFuture(AfterStart(a, x).session, AfterStart(b, y).session)
  {
    ReceivesAgree(a, b, x.session, y.session);
  }

  lemma HandshakesAgree(a: Setup, b: Setup, x: Outcome, y: Outcome)
    requires SameClient(a, b) && SameFuture(x.session, y.session)
    requires AfterHandshake(a, x).result.Success? && AfterHandshake(b, y).result.Success?
    ensures SameFuture(AfterHandshake(a, x).session, AfterHandshake(b, y).session)
  {
    StartsAgree(a, b, StartApiStep(a, x.session), StartApiStep(b, y.session));
  }

  lemma GreetingsAgree(a: Setup, b: Setup, x: Session, y: Session)
    requires SameClient(a, b) && SameFuture(x, y)
    requires HandshakeStep(a, x).result.Success? && HandshakeStep(b, y).result.Success?
    ensures SameFuture(HandshakeStep(a, x).session, HandshakeStep(b, y).session)
  {
  }

  lemma EstablishesAgree(a: Setup, b: Setup, x: Session, y: Session)
    requires SameClient(a, b) && SameFuture(x, y)
    requires Establish(a, x).result.Success? && Establish(b, y).result.Success?
    ensures SameFuture(Establish(a, x).session, Establish(b, y).session)
  {
    GreetingsAgree(a, b, x, y);
    HandshakesAgree(a, b, HandshakeStep(a, x), HandshakeStep(b, y));
  }

  // ---- reconnecting ----

  /** The failed attempts before the first that connects. */
  function FailedConnects(connects: seq<ConnectOutcome>): (k: nat)
    ensures k <= |connects|
    ensures forall i :: 0 <= i < k ==> connects[i].ConnectFailed?
    ensures k < |connects| ==> connects[k].Connected?
  {
    if connects == [] || connects[0].Connected? then 0 else 1 + FailedConnects(connects[1..])
  }

  /** The peer after attempts `i` to `n` to connect, each after its delay. */
  function AfterConnects(peer: Peer, i: nat, n: nat): Peer
    requires i <= n
    decreases n - i
  {
    if i == n then peer else AfterConnects(peer.Sleep(Delay(i)).Connect().1, i + 1, n)
  }

  /** Attempts to connect take connects and sleep before each, and touch nothing else. */
  lemma {:induction false} ConnectsTouchLittle(peer: Peer, i: nat, n: nat)
    requires i <= n
    ensures AfterConnects(peer, i, n)
         == peer.(connects := Drop(peer.connects, n - i), openings := peer.openings + Openings(i, n - i))
    decreases n - i
  {
    if i < n {
      var next := peer.Sleep(Delay(i)).Connect().1;
      ConnectsTouchLittle(next, i + 1, n);
      DropDrop(peer.connects, 1, n - i - 1);
      assert next.connects == Drop(peer.connects, 1);
      Regroup(peer.openings, [Slept(Delay(i))], [Tried]);
      Regroup(peer.openings, [Slept(Delay(i)), Tried], Openings(i + 1, n - i - 1));
    } else {
      AppendNothing(peer.openings);
    }
  }

  /** Reconnecting from attempt `i`, for any way `replay` of starting a session on an
      open socket: with `k` failures to come it replays after `k + 1` attempts, and if
      those are too many it gives up after all it is allowed. */
  lemma {:induction false} ReconnectAttempts(replay: Session -> Outcome, limit: nat, i: nat, s: Session)
    requires i <= limit
    ensures var tries := FailedConnects(s.peer.connects) + 1;
            ReconnectFrom(replay, limit, i, s)
            == if i + tries <= limit then replay(s.(peer := AfterConnects(s.peer, i, i + tries)))
               else Outcome(Failure(ConnectionFailed), s.(peer := AfterConnects(s.peer, i, limit)))
    decreases limit - i
  {
    if i < limit {
      var (connected, peer) := s.peer.Sleep(Delay(i)).Connect();
      if connected.Failure? {
        ReconnectAttempts(replay, limit, i + 1, s.(peer := peer));
      }
    }
  }

  /** The peer after the first `n` attempts: that many delays slept, that many connect
      outcomes taken, and nothing else. */
  function Attempted(peer: Peer, n: nat): Peer {
    peer.(connects := Drop(peer.connects, n), openings := peer.openings + Openings(0, n))
  }

  /** The session once its socket has opened: the failed attempts and the good one made. */
  function OnOpenSocket(s: Session): Session {
    s.(peer := Attempted(s.peer, FailedConnects(s.peer.connects) + 1))
  }

  /** How many attempts to connect a reconnection makes. */
  function Attempts(peer: Peer, limit: nat): nat {
    if FailedConnects(peer.connects) < limit then FailedConnects(peer.connects) + 1 else limit
  }

  lemma ReplayBound(replay: Session -> Outcome, limit: nat, s: Session)
    ensures var o := ReconnectFrom(replay, limit, 0, s);
            if FailedConnects(s.peer.connects) < limit then o == replay(OnOpenSocket(s))
            else o == Outcome(Failure(ConnectionFailed), s.(peer := Attempted(s.peer, limit)))
  {
    ReconnectAttempts(replay, limit, 0, s);
    ConnectsTouchLittle(s.peer, 0, Attempts(s.peer, limit));
  }

  /** Connecting makes no attempt to open a socket, and never sleeps. */
  predicate SameSocket(before: Peer, after: Peer) {
    before.connects == after.connects && before.openings == after.openings
  }

  lemma ReceiveOpensNothing(setup: Setup, s: Session)
    ensures SameSocket(s.peer, ReceiveStep(setup, s).session.peer)
  {
    var n := LoopMeaning(Reading(setup, s.metadata.serverVersion), s.peer, s.heard);
  }

  lemma AfterStartOpensNothing(setup: Setup, started: Outcome)
    ensures SameSocket(started.session.peer, AfterStart(setup, started).session.peer)
  {
    ReceiveOpensNothing(setup, started.session);
  }

  lemma AfterHandshakeOpensNothing(setup: Setup, shaken: Outcome)
    ensures SameSocket(shaken.session.peer, AfterHandshake(setup, shaken).session.peer)
  {
    AfterStartOpensNothing(setup, StartApiStep(setup, shaken.session));
  }

  lemma HandshakeOpensNothing(setup: Setup, s: Session)
    ensures SameSocket(s.peer, HandshakeStep(setup, s).session.peer)
  {
  }

  lemma EstablishOpensNothing(setup: Setup, s: Session)
    ensures SameSocket(s.peer, Establish(setup, s).session.peer)
  {
    HandshakeOpensNothing(setup, s);
    AfterHandshakeOpensNothing(setup, HandshakeStep(setup, s));
  }

  /** With `k` failures before the first success, reconnecting returns what the replayed
      handshake returns; when all 20 attempts fail it returns `ConnectionFailed`, and
      nothing but those attempts has happened. */
  lemma ReconnectOutcome(setup: Setup, s: Session)
    ensures Reconnect(setup, s)
         == if FailedConnects(s.peer.connects) < 20
            then Establish(setup, Reset(setup, OnOpenSocket(s)))
            else Outcome(Failure(ConnectionFailed), s.(peer := Attempted(s.peer, 20)))
  {
    ReplayBound(Replaying(setup), 20, s);
  }

  /** In all, from its start to its end, a reconnection makes `k + 1` attempts, or 20 if
      none opens a socket: each sleeps for the next delay and then tries, and takes one
      connect outcome. */
  lemma ReconnectBound(setup: Setup, s: Session)
    ensures var k := FailedConnects(s.peer.connects);
            var n := if k < 20 then k + 1 else 20;
            var after := Reconnect(setup, s).session.peer;
            && after.openings == s.peer.openings + Openings(0, n) && after.connects == Drop(s.peer.connects, n)
            && (forall i: nat :: i < n ==>
                  Openings(0, n)[2 * i] == Slept(Delay(i)) && Openings(0, n)[2 * i + 1] == Tried)
  {
    var n := Attempts(s.peer, 20);
    ReconnectOutcome(setup, s);
    EstablishOpensNothing(setup, Reset(setup, OnOpenSocket(s)));
    forall i: nat | i < n
      ensures Openings(0, n)[2 * i] == Slept(Delay(i)) && Openings(0, n)[2 * i + 1] == Tried
    {
      OpeningAt(0, n, i);
    }
  }

  /** Reconnecting keeps nothing of the old session's metadata: with the same peer and
      listeners the whole outcome is the same whatever the metadata was, unless no
      socket could be opened, and then the metadata stays as it was. */
  lemma ReconnectIgnoresPast(setup: Setup, x: Session, y: Session)
    requires x.peer == y.peer && x.heard == y.heard
    ensures if FailedConnects(x.peer.connects) < 20 then Reconnect(setup, x) == Reconnect(setup, y)
            else Reconnect(setup, x).session.metadata == x.metadata
  {
    ReconnectOutcome(setup, x);
    ReconnectOutcome(setup, y);
    OpenSocketsAgree(setup, x, y);
  }

  lemma OpenSocketsAgree(setup: Setup, x: Session, y: Session)
    requires x.peer == y.peer && x.heard == y.heard
    ensures Reset(setup, OnOpenSocket(x)) == Reset(setup, OnOpenSocket(y))
  {
  }

  /** After a reconnection succeeds every metadata field is settled by the client's id
      and the frames read since the socket opened: not by the old metadata, the number
      of failed attempts, the writes, or the listeners. */
  lemma ReconnectForgets(a: Setup, b: Setup, x: Session, y: Session)
    requires SameClient(a, b) && x.peer.inbound == y.peer.inbound
    requires Reconnect(a, x).result.Success? && Reconnect(b, y).result.Success?
    ensures SameFuture(Reconnect(a, x).session, Reconnect(b, y).session)
  {
    ReconnectOutcome(a, x);
    ReconnectOutcome(b, y);
    EstablishesAgree(a, b, Reset(a, OnOpenSocket(x)), Reset(b, OnOpenSocket(y)));
  }

  /** Whether a call gets to a socket it can greet on. */
  predicate Opens(call: Call, peer: Peer) {
    call.EstablishCall? || FailedConnects(peer.connects) < 20
  }

  /** A call that gets to a socket connects on it; one that does not has failed. */
  lemma PerformOutcome(setup: Setup, call: Call, s: Session)
    ensures Perform(setup, call, s)
         == if !Opens(call, s.peer)
            then Outcome(Failure(ConnectionFailed), s.(peer := Attempted(s.peer, 20)))
            else if call.EstablishCall? then Establish(setup, s)
            else Establish(setup, Reset(setup, OnOpenSocket(s)))
  {
    ReconnectOutcome(setup, s);
  }

  // ---- the metadata of an established session ----

  lemma ReceivedMetadata(setup: Setup, s: Session) returns (n: nat, info: AccountInfo)
    requires ReceiveStep(setup, s).result.Success?
    ensures var effects := FirstEffects(Reading(setup, s.metadata.serverVersion), s.peer, n);
            && ShortestStop(effects) && IsLastInfo(effects, info)
            && ReceiveStep(setup, s).session.metadata == Store(s.metadata, info)
            && ReceiveStep(setup, s).session.peer == AfterReads(s.peer, n)
  {
    var reading := Reading(setup, s.metadata.serverVersion);
    n := LoopMeaning(reading, s.peer, s.heard);
    info := ReceiveLoop(reading, s.peer, s.heard, NO_ACCOUNT_INFO, 0).result.value;
  }

  lemma StartedFrom(setup: Setup, started: Outcome) returns (n: nat, info: AccountInfo)
    requires AfterStart(setup, started).result.Success?
    ensures started.result.Success?
    ensures var reading := Reading(setup, started.session.metadata.serverVersion);
            var effects := FirstEffects(reading, started.session.peer, n);
            && ShortestStop(effects) && IsLastInfo(effects, info)
            && AfterStart(setup, started).session.metadata == Store(started.session.metadata, info)
            && AfterStart(setup, started).session.peer.inbound == Drop(started.session.peer.inbound, n)
  {
    n, info := ReceivedMetadata(setup, started.session);
  }

  lemma StartedMetadata(setup: Setup, shaken: Outcome) returns (n: nat, info: AccountInfo)
    requires AfterHandshake(setup, shaken).result.Success?
    ensures MayStart(shaken)
    ensures var reading := Reading(setup, shaken.session.metadata.serverVersion);
            var effects := EffectsOf(reading, FirstReads(shaken.session.peer.inbound, n));
            && ShortestStop(effects) && IsLastInfo(effects, info)
            && AfterHandshake(setup, shaken).session.metadata == Store(shaken.session.metadata, info)
            && AfterHandshake(setup, shaken).session.peer.inbound == Drop(shaken.session.peer.inbound, n)
  {
    n, info := StartedFrom(setup, StartApiStep(setup, shaken.session));
  }

  /** The metadata a reply and the account data settle. */
  predicate SettledBy(platform: Platform, reply: HandshakeData, info: AccountInfo, before: Metadata, after: Metadata) {
    && ParseConnectionTime(platform, reply.serverTime) == Success((after.connectionTime, after.timeZone))
    && after.serverVersion == reply.serverVersion
    && after.clientId == before.clientId
    && after.nextOrderId == info.nextOrderId.GetOr(before.nextOrderId)
    && after.managedAccounts == info.managedAccounts.GetOr(before.managedAccounts)
  }

  /** An established session's metadata, field by field: version, time and zone from the
      reply, read raw; id and accounts from the shortest prefix of frames behind it that
      gives both, or from 101 of them; and no later frame has been read. */
  lemma EstablishedMetadata(setup: Setup, s: Session) returns (n: nat, reply: HandshakeData, info: AccountInfo)
    requires Establish(setup, s).result.Success?
    ensures s.peer.inbound != [] && s.peer.inbound[0].Frame?
    ensures HandshakeReply(FromText(setup.platform.decodeText(s.peer.inbound[0].body))) == Success(reply)
    ensures reply.serverVersion >= 210
    ensures SettledBy(setup.platform, reply, info, s.metadata, Establish(setup, s).session.metadata)
    ensures var effects := EffectsOf(Reading(setup, reply.serverVersion), FirstReads(s.peer.inbound[1..], n));
            && ShortestStop(effects) && IsLastInfo(effects, info)
            && Establish(setup, s).session.peer.inbound == Drop(s.peer.inbound[1..], n)
  {
    n, info := StartedMetadata(setup, HandshakeStep(setup, s));
    reply := ShakenBy(setup, s);
  }

  lemma ShakenBy(setup: Setup, s: Session) returns (reply: HandshakeData)
    requires HandshakeStep(setup, s).result.Success?
    ensures s.peer.inbound != [] && s.peer.inbound[0].Frame?
    ensures HandshakeReply(FromText(setup.platform.decodeText(s.peer.inbound[0].body))) == Success(reply)
    ensures HandshakeStep(setup, s).session.peer.inbound == s.peer.inbound[1..]
    ensures SettledBy(setup.platform, reply, NO_ACCOUNT_INFO, s.metadata, HandshakeStep(setup, s).session.metadata)
  {
    reply := HandshakeReply(FromText(setup.platform.decodeText(s.peer.inbound[0].body))).value;
  }

  // ---- when a connection succeeds ----

  function ReplyVersion(platform: Platform, inbound: seq<ReadOutcome>): Int32
    requires Welcomes(platform, inbound)
  {
    HandshakeReply(FromText(platform.decodeText(inbound[0].body))).value.serverVersion
  }

  /** Some prefix of the frames is one at which the loop stops with what it has. */
  ghost predicate Settles(reading: Bytes -> Effect, inbound: seq<ReadOutcome>) {
    exists n :: ShortestStop(EffectsOf(reading, FirstReads(inbound, n)))
  }

  lemma ReceiveSucceedsIff(setup: Setup, s: Session)
    ensures ReceiveStep(setup, s).result.Success? <==> Settles(Reading(setup, s.metadata.serverVersion), s.peer.inbound)
  {
    var reading := Reading(setup, s.metadata.serverVersion);
    LoopSucceedsIff(reading, s.peer, s.heard);
    assert forall n :: FirstEffects(reading, s.peer, n) == EffectsOf(reading, FirstReads(s.peer.inbound, n));
  }

  lemma StartedSucceedsIff(setup: Setup, shaken: Outcome)
    ensures AfterHandshake(setup, shaken).result.Success?
       <==> MayStart(shaken) && Writable(shaken.session.peer, 1)
            && Settles(Reading(setup, shaken.session.metadata.serverVersion), shaken.session.peer.inbound)
  {
    ReceiveSucceedsIff(setup, StartApiStep(setup, shaken.session).session);
  }

  lemma WelcomedWith(setup: Setup, s: Session)
    requires MayStart(HandshakeStep(setup, s)) && Welcomes(setup.platform, s.peer.inbound)
    ensures var shaken := HandshakeStep(setup, s);
            && shaken.session.metadata.serverVersion == ReplyVersion(setup.platform, s.peer.inbound)
            && shaken.session.peer.inbound == s.peer.inbound[1..]
  {
    var reply := ShakenBy(setup, s);
  }

  /** A connection succeeds exactly when its two writes do, the peer welcomes it, and the
      frames behind the reply have a prefix at which the loop can stop. */
  lemma EstablishSucceedsIff(setup: Setup, s: Session)
    ensures Establish(setup, s).result.Success?
       <==> Writable(s.peer, 2) && Welcomes(setup.platform, s.peer.inbound)
            && Settles(Reading(setup, ReplyVersion(setup.platform, s.peer.inbound)), s.peer.inbound[1..])
  {
    MayStartIff(setup, s);
    WritableAgain(s.peer, HandshakeStep(setup, s).session.peer);
    StartedSucceedsIff(setup, HandshakeStep(setup, s));
    if MayStart(HandshakeStep(setup, s)) {
      WelcomedWith(setup, s);
    }
  }

  // ---- what a failed connection leaves ----

  lemma AfterHandshakeFailureKeeps(setup: Setup, shaken: Outcome)
    requires AfterHandshake(setup, shaken).result.Failure?
    ensures AfterHandshake(setup, shaken).session.metadata == shaken.session.metadata
  {
  }

  /** A failed connection has not touched the order id, the accounts or the client id. */
  lemma EstablishFailureKeeps(setup: Setup, s: Session)
    requires Establish(setup, s).result.Failure?
    ensures var after := Establish(setup, s).session.metadata;
            && after.nextOrderId == s.metadata.nextOrderId
            && after.managedAccounts == s.metadata.managedAccounts
            && after.clientId == s.metadata.clientId
  {
    AfterHandshakeFailureKeeps(setup, HandshakeStep(setup, s));
  }

  /** The zone a time names without its being known. */
  function UnknownZone(platform: Platform, time: string): Option<string> {
    match TimeParts(time)
    case None => None
    case Some((_, zone)) => if platform.findZone(zone).None? then Some(zone) else None
  }

  /** What is wrong with a peer's reply: first of all that there is none, then its fields,
      then its time zone, then its version. */
  function ReplyError(platform: Platform, inbound: seq<ReadOutcome>): Option<Error> {
    if inbound == [] then Some(ConnectionRejected([]))
    else
      match inbound[0]
      case ReadFailed(Io(UnexpectedEof, detail)) => Some(ConnectionRejected(detail))
      case ReadFailed(error) => Some(error)
      case Frame(body) =>
        match HandshakeReply(FromText(platform.decodeText(body)))
        case Failure(error) => Some(error)
        case Success(reply) =>
          match UnknownZone(platform, reply.serverTime)
          case Some(zone) => Some(UnsupportedTimeZone(zone))
          case None =>
            if reply.serverVersion >= 210 then None
            else Some(ServerVersion(210, reply.serverVersion))
  }

  lemma WelcomesIff(platform: Platform, inbound: seq<ReadOutcome>)
    ensures Welcomes(platform, inbound) <==> ReplyError(platform, inbound) == None
  {
  }

  function WriteError(writes: seq<WriteOutcome>): Option<Error> {
    if writes == [] || writes[0].Written? then None else Some(writes[0].error)
  }

  /** The error of a connection that reads no frame: the first that goes wrong of the
      greeting's write, the reply, and StartApi's write. */
  function EarlyError(platform: Platform, peer: Peer): Option<Error> {
    if WriteError(peer.writes).Some? then WriteError(peer.writes)
    else if ReplyError(platform, peer.inbound).Some? then ReplyError(platform, peer.inbound)
    else WriteError(Drop(peer.writes, 1))
  }

  lemma ShakenError(setup: Setup, s: Session)
    ensures var shaken := HandshakeStep(setup, s);
            var early := if WriteError(s.peer.writes).Some? then WriteError(s.peer.writes)
                         else ReplyError(setup.platform, s.peer.inbound);
            && (MayStart(shaken) <==> early == None)
            && (early.Some? ==> AfterHandshake(setup, shaken).result == Failure(early.value))
  {
  }

  lemma StartError(setup: Setup, shaken: Outcome)
    requires MayStart(shaken) && WriteError(shaken.session.peer.writes).Some?
    ensures AfterHandshake(setup, shaken).result == Failure(WriteError(shaken.session.peer.writes).value)
  {
  }

  /** A connection reaches the account-info loop exactly when its writes succeed and the
      peer welcomes it; otherwise it fails with the first error there is. */
  lemma EstablishFailsEarly(setup: Setup, s: Session)
    ensures var early := EarlyError(setup.platform, s.peer);
            && (early == None <==> Writable(s.peer, 2) && Welcomes(setup.platform, s.peer.inbound))
            && (early.Some? ==> Establish(setup, s).result == Failure(early.value))
  {
    WelcomesIff(setup.platform, s.peer.inbound);
    MayStartIff(setup, s);
    WritableAgain(s.peer, HandshakeStep(setup, s).session.peer);
    ShakenError(setup, s);
    if MayStart(HandshakeStep(setup, s)) && WriteError(Drop(s.peer.writes, 1)).Some? {
      StartError(setup, HandshakeStep(setup, s));
    }
  }

  /** A reply that names an unknown zone fails the connection, but its version stays. */
  lemma UnknownZoneKeepsVersion(setup: Setup, s: Session, reply: HandshakeData)
    requires Writable(s.peer, 1) && s.peer.inbound != [] && s.peer.inbound[0].Frame?
    requires HandshakeReply(FromText(setup.platform.decodeText(s.peer.inbound[0].body))) == Success(reply)
    requires UnknownZone(setup.platform, reply.serverTime).Some?
    ensures var o := Establish(setup, s);
            && o.result == Failure(UnsupportedTimeZone(UnknownZone(setup.platform, reply.serverTime).value))
            && o.session.metadata == s.metadata.(serverVersion := reply.serverVersion)
            && o.session.peer.sent == s.peer.sent + setup.greeting
  {
  }
}
