/** The socket of a session, scripted, with what was written to it. */
module Transport {
  import opened Wrappers
  import opened MachineInts
  import opened Errors
  import opened SessionModel
  import opened WriteGate
  import opened Backoff

  class Socket {
    var inbound: seq<ReadOutcome>
    var writes: seq<WriteOutcome>
    var connects: seq<ConnectOutcome>
    var sent: Bytes
    var openings: seq<Opening>
    /** What the asynchronous transport told the write gate, a write each. */
    var told: seq<OutgoingMeta>

    constructor (inbound: seq<ReadOutcome>, writes: seq<WriteOutcome>, connects: seq<ConnectOutcome>)
      ensures this.inbound == inbound && this.writes == writes && this.connects == connects
      ensures sent == [] && openings == [] && told == []
    {
      this.inbound, this.writes, this.connects := inbound, writes, connects;
      sent, openings, told := [], [], [];
    }

    function Snapshot(): Peer
      reads this
    {
      Peer(inbound, writes, connects, sent, openings)
    }

    method ReadMessage() returns (r: Result<Bytes, Error>)
      modifies this
      ensures (r, Snapshot()) == old(Snapshot()).Read()
      ensures told == old(told)
    {
      if inbound == [] {
        return Failure(Io(UnexpectedEof, []));
      }
      var outcome := inbound[0];
      inbound := inbound[1..];
      match outcome {
        case Frame(body) => return Success(body);
        case ReadFailed(error) => return Failure(error);
      }
    }

    method WriteAll(packet: Bytes) returns (r: Result<(), Error>)
      modifies this
      ensures (r, Snapshot()) == old(Snapshot()).Write(packet)
      ensures told == old(told)
    {
      var outcome := if writes == [] then Written else writes[0];
      writes := if writes == [] then [] else writes[1..];
      match outcome {
        case Written =>
          sent := sent + packet;
          return Success(());
        case WriteFailed(error, accepted) =>
          sent := sent + if accepted <= |packet| then packet[..accepted] else packet;
          return Failure(error);
      }
    }

    /** A write described to the gate first. There is no gate here to refuse it. */
    method WriteFrame(meta: OutgoingMeta, packet: Bytes) returns (r: Result<(), Error>)
      modifies this
      ensures (r, Snapshot()) == old(Snapshot()).Write(packet)
      ensures told == old(told) + [meta]
    {
      told := told + [meta];
      r := WriteAll(packet);
    }

    method Reconnect() returns (r: Result<(), Error>)
      modifies this
      ensures (r, Snapshot()) == old(Snapshot()).Connect()
      ensures told == old(told)
    {
      openings := openings + [Tried];
      if connects == [] {
        return Success(());
      }
      var outcome := connects[0];
      connects := connects[1..];
      match outcome {
        case Connected => return Success(());
        case ConnectFailed(error) => return Failure(error);
      }
    }

    method Sleep(delay: nat)
      modifies this
      ensures Snapshot() == old(Snapshot()).Sleep(delay)
      ensures told == old(told)
    {
      openings := openings + [Slept(delay)];
    }
  }
}
