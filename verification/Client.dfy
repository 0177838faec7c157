/** The blocking client, as far as the handshake settles it. */
module Client {
  import opened Wrappers
  import opened Sequences
  import opened MachineInts
  import opened Errors
  import opened Handshake
  import opened SessionModel
  import opened LoopTheorems
  import opened SessionTheorems
  import opened Transport
  import opened Ids
  import Accounts
  import SyncConnection

  class Client {
    const serverVersion: Int32
    const connectionTime: Option<Instant>
    const timeZone: Option<Zone>
    const clientId: Int32
    const idManager: ClientIdManager
    const handshakeManagedAccounts: seq<string>

    constructor (metadata: Metadata)
      ensures IsFor(metadata) && fresh(idManager) && fresh(idManager.requestIds) && fresh(idManager.orderIds)
      ensures idManager.Valid()
      ensures idManager.requestIds.nextId == 9000 && idManager.orderIds.nextId == metadata.nextOrderId
    {
      serverVersion := metadata.serverVersion;
      connectionTime := metadata.connectionTime;
      timeZone := metadata.timeZone;
      clientId := metadata.clientId;
      idManager := new ClientIdManager(metadata.nextOrderId);
      handshakeManagedAccounts := Accounts.SplitAccounts(metadata.managedAccounts);
    }

    ghost predicate IsFor(metadata: Metadata) {
      && serverVersion == metadata.serverVersion
      && connectionTime == metadata.connectionTime
      && timeZone == metadata.timeZone
      && clientId == metadata.clientId
      && handshakeManagedAccounts == Accounts.SplitAccounts(metadata.managedAccounts)
    }
  }

  /** Connects over a socket. Of the message bus that then takes over, only whether it
      starts is modelled, as `bus`. */
  method ConnectWithPieces(socket: Socket, clientId: Int32, platform: Platform, observers: Observers,
                           bus: Result<(), Error>)
    returns (r: Result<Client, Error>)
    modifies socket, observers
    ensures var setup := SetupOf(platform, observers.installed, clientId);
            var start := Session(old(socket.Snapshot()), old(observers.Snapshot()), FreshMetadata(clientId));
            var o := Establish(setup, start);
            && socket.Snapshot() == o.session.peer && observers.Snapshot() == o.session.heard
            && match o.result
               case Failure(error) => r == Failure(error)
               case Success(_) =>
                 if bus.Failure? then r == Failure(bus.error)
                 else
                 var metadata := o.session.metadata;
                 && r.Success?
                 && r.value.serverVersion == metadata.serverVersion
                 && r.value.connectionTime == metadata.connectionTime
                 && r.value.timeZone == metadata.timeZone
                 && r.value.clientId == metadata.clientId
                 && r.value.handshakeManagedAccounts == Accounts.SplitAccounts(metadata.managedAccounts)
                 && r.value.idManager.requestIds.nextId == 9000
                 && r.value.idManager.orderIds.nextId == metadata.nextOrderId
  {
    var connection := new SyncConnection.Connection.WithSocket(socket, clientId, platform, observers);
    var _ :- connection.EstablishConnection();
    var metadata := connection.ConnectionMetadata();
    var _ :- bus;
    var client := new Client(metadata);
    return Success(client);
  }

  /** The order id a handshake leaves: the last one given by the frames it read behind
      the reply, or 0 when it read 101 of them without one. */
  lemma SeedOfHandshake(setup: Setup, s: Session) returns (n: nat)
    requires s.metadata == FreshMetadata(setup.clientId)
    requires Establish(setup, s).result.Success?
    ensures s.peer.inbound != []
    ensures Establish(setup, s).session.peer.inbound == Drop(s.peer.inbound[1..], n)
    ensures var metadata := Establish(setup, s).session.metadata;
            IsSeed(EffectsOf(Reading(setup, metadata.serverVersion), FirstReads(s.peer.inbound[1..], n)),
                   metadata.nextOrderId)
  {
    var reply, info;
    n, reply, info := EstablishedMetadata(setup, s);
    var effects := EffectsOf(Reading(setup, reply.serverVersion), FirstReads(s.peer.inbound[1..], n));
    SeedOfEffects(effects, info, Establish(setup, s).session.metadata.nextOrderId);
  }

  ghost predicate IsSeed(effects: seq<Effect>, first: Int32) {
    && ShortestStop(effects)
    && (IsLastId(effects, Some(first)) || (|effects| == MOST_FRAMES && IsLastId(effects, None) && first == 0))
  }

  lemma SeedOfEffects(effects: seq<Effect>, info: AccountInfo, first: Int32)
    requires ShortestStop(effects) && IsLastInfo(effects, info) && first == info.nextOrderId.GetOr(0)
    ensures IsSeed(effects, first)
  {
    if info.nextOrderId == None {
      assert !Known(effects);
    }
  }

  /** After connecting, and until an order id is set, the order ids that any threads draw
      are consecutive, modulo 2^32, from the one the handshake left. */
  lemma OrderIdsFollowHandshake(setup: Setup, s: Session, counters: Counters, ops: seq<Op>, i: nat)
    returns (n: nat)
    requires s.metadata == FreshMetadata(setup.clientId)
    requires Establish(setup, s).result.Success?
    requires counters.order == Establish(setup, s).session.metadata.nextOrderId
    requires i < |ops| && ops[i] == DrawOrder && NoSets(ops[..i])
    ensures s.peer.inbound != []
    ensures Establish(setup, s).session.peer.inbound == Drop(s.peer.inbound[1..], n)
    ensures var version := Establish(setup, s).session.metadata.serverVersion;
            IsSeed(EffectsOf(Reading(setup, version), FirstReads(s.peer.inbound[1..], n)), counters.order)
    ensures |RunOps(counters, ops).0| == |ops|
    ensures RunOps(counters, ops).0[i] == Drawn(WrapInt32(counters.order + Draws(ops[..i], DrawOrder)))
  {
    OrderIdsAreConsecutive(counters, ops, i);
    n := SeedOfHandshake(setup, s);
  }
}
