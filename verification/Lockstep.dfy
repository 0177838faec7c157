/** The two connections, driven side by side. */
module Lockstep {
  import opened Wrappers
  import opened Errors
  import opened MachineInts
  import opened Handshake
  import opened SessionModel
  import opened Transport
  import SyncConnection
  import AsyncConnection

  method PerformSync(c: SyncConnection.Connection, call: Call) returns (r: Result<(), Error>)
    requires c.Valid()
    modifies c, c.socket, c.observers
    ensures Outcome(r, c.View()) == Perform(c.Fixed(), call, old(c.View()))
  {
    match call {
      case EstablishCall => r := c.EstablishConnection();
      case ReconnectCall => r := c.DoReconnect();
    }
  }

  method PerformAsync(c: AsyncConnection.Connection, call: Call) returns (r: Result<(), Error>)
    requires c.Valid() && !c.handshaking
    modifies c, c.socket, c.observers
    ensures Outcome(r, c.View()) == Perform(c.Fixed(), call, old(c.View()))
    ensures !c.handshaking && AsyncConnection.OnlyHandshakes(old(c.socket.told), c.socket.told)
  {
    match call {
      case EstablishCall => r := c.EstablishConnection();
      case ReconnectCall => r := c.DoReconnect();
    }
  }

  lemma RunOneMore(setup: Setup, calls: seq<Call>, i: nat, s: Session)
    requires i < |calls|
    ensures var before := Run(setup, calls[..i], s);
            var last := Perform(setup, calls[i], before.1);
            Run(setup, calls[..i + 1], s) == (before.0 + [last.result], last.session)
  {
    assert calls[..i + 1][..i] == calls[..i];
  }

  /** A blocking and an asynchronous connection that stand for the same session give
      the same results for every sequence of calls, and stand for the same session
      after it: the same metadata as read, bytes sent, sleeps, notices and callbacks.
      What the asynchronous one tells the write gate all belongs to a handshake. */
  method RunBoth(s: SyncConnection.Connection, a: AsyncConnection.Connection, calls: seq<Call>)
    returns (results: seq<Result<(), Error>>, asyncResults: seq<Result<(), Error>>)
    requires s.Valid() && a.Valid() && !a.handshaking
    requires s.socket != a.socket && s.observers != a.observers
    requires s.Fixed() == a.Fixed() && s.View() == a.View()
    modifies s, s.socket, s.observers, a, a.socket, a.observers
    ensures results == asyncResults
    ensures s.View() == a.View()
    ensures (results, s.View()) == Run(s.Fixed(), calls, old(s.View()))
    ensures !a.handshaking && AsyncConnection.OnlyHandshakes(old(a.socket.told), a.socket.told)
  {
    results, asyncResults := [], [];
    for i := 0 to |calls|
      invariant results == asyncResults
      invariant s.View() == a.View()
      invariant (results, s.View()) == Run(s.Fixed(), calls[..i], old(s.View()))
      invariant !a.handshaking && AsyncConnection.OnlyHandshakes(old(a.socket.told), a.socket.told)
    {
      RunOneMore(s.Fixed(), calls, i, old(s.View()));
      var r := PerformSync(s, calls[i]);
      var t := PerformAsync(a, calls[i]);
      results := results + [r];
      asyncResults := asyncResults + [t];
    }
    assert calls[..|calls|] == calls;
  }

  /** The same from the start: two connections made for one client over sockets with
      one script, and all that can be seen of each after a sequence of calls. */
  method RunFresh(platform: Platform, installed: bool, clientId: Int32, inbound: seq<ReadOutcome>,
                  writes: seq<WriteOutcome>, connects: seq<ConnectOutcome>, calls: seq<Call>)
    returns (results: seq<Result<(), Error>>, session: Session,
             asyncResults: seq<Result<(), Error>>, asyncSession: Session)
    ensures results == asyncResults && session == asyncSession
    ensures (results, session) == Run(SetupOf(platform, installed, clientId), calls,
                                      FreshSession(inbound, writes, connects, clientId))
  {
    var socket := new Socket(inbound, writes, connects);
    var asyncSocket := new Socket(inbound, writes, connects);
    var observers := new Observers(installed);
    var asyncObservers := new Observers(installed);
    var s := new SyncConnection.Connection.WithSocket(socket, clientId, platform, observers);
    var a := new AsyncConnection.Connection.WithSocket(asyncSocket, clientId, platform, asyncObservers);
    results, asyncResults := RunBoth(s, a, calls);
    var metadata := s.ConnectionMetadata();
    session := Session(socket.Snapshot(), observers.Snapshot(), metadata);
    metadata := a.ConnectionMetadata();
    asyncSession := Session(asyncSocket.Snapshot(), asyncObservers.Snapshot(), metadata);
  }
}
