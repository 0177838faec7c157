/** Message ids, inbound and outbound. */
module MessageKinds {
  import opened Wrappers
  import opened MachineInts
  import opened Decimal

  /** Kinds of inbound message. The kinds the handshake tells apart have their
      own constructors; every other known id is `Other`. */
  datatype Kind =
    | Shutdown | NotValid
    | OrderStatus | Error | OpenOrder | AccountValue | PortfolioValue | AccountUpdateTime
    | NextValidId | ExecutionData | ManagedAccounts | OpenOrderEnd | AccountDownloadEnd
    | ExecutionDataEnd | CommissionsReport | CompletedOrder | CompletedOrdersEnd
    | Other(id: int)

  /** The ids with a constructor in `IncomingMessages`, `NotValid` aside. */
  predicate IsKnownId(id: int) {
    id == -2 || 1 <= id <= 21 || 45 <= id <= 47 || 49 <= id <= 59 || 61 <= id <= 111
  }

  function KindOfId(id: int): Kind {
    if id == -2 then Shutdown
    else if id == 3 then OrderStatus
    else if id == 4 then Error
    else if id == 5 then OpenOrder
    else if id == 6 then AccountValue
    else if id == 7 then PortfolioValue
    else if id == 8 then AccountUpdateTime
    else if id == 9 then NextValidId
    else if id == 11 then ExecutionData
    else if id == 15 then ManagedAccounts
    else if id == 53 then OpenOrderEnd
    else if id == 54 then AccountDownloadEnd
    else if id == 55 then ExecutionDataEnd
    else if id == 59 then CommissionsReport
    else if id == 101 then CompletedOrder
    else if id == 102 then CompletedOrdersEnd
    else if IsKnownId(id) then Other(id)
    else NotValid
  }

  /** The enum's discriminant. */
  function IdOfKind(kind: Kind): int {
    match kind
    case Shutdown => -2
    case NotValid => -1
    case OrderStatus => 3
    case Error => 4
    case OpenOrder => 5
    case AccountValue => 6
    case PortfolioValue => 7
    case AccountUpdateTime => 8
    case NextValidId => 9
    case ExecutionData => 11
    case ManagedAccounts => 15
    case OpenOrderEnd => 53
    case AccountDownloadEnd => 54
    case ExecutionDataEnd => 55
    case CommissionsReport => 59
    case CompletedOrder => 101
    case CompletedOrdersEnd => 102
    case Other(id) => id
  }

  /** The kind of an id has that id as its discriminant exactly when the id is known;
      every other id is `NotValid`. */
  lemma KindOfIdIsExact(id: int)
    ensures id == -2 || 1 <= id <= 21 || 45 <= id <= 47 || 49 <= id <= 59 || 61 <= id <= 111 ==>
              IdOfKind(KindOfId(id)) == id && KindOfId(id) != NotValid
    ensures !(id == -2 || 1 <= id <= 21 || 45 <= id <= 47 || 49 <= id <= 59 || 61 <= id <= 111) ==>
              KindOfId(id) == NotValid
  {
  }

  /** The ids of the kinds that the handshake tells apart. */
  lemma KnownKinds(id: int)
    ensures (KindOfId(id) == Shutdown <==> id == -2) && (KindOfId(id) == OrderStatus <==> id == 3)
    ensures (KindOfId(id) == Error <==> id == 4) && (KindOfId(id) == OpenOrder <==> id == 5)
    ensures (KindOfId(id) == AccountValue <==> id == 6) && (KindOfId(id) == PortfolioValue <==> id == 7)
    ensures (KindOfId(id) == AccountUpdateTime <==> id == 8) && (KindOfId(id) == NextValidId <==> id == 9)
    ensures (KindOfId(id) == ExecutionData <==> id == 11) && (KindOfId(id) == ManagedAccounts <==> id == 15)
    ensures (KindOfId(id) == OpenOrderEnd <==> id == 53) && (KindOfId(id) == AccountDownloadEnd <==> id == 54)
    ensures (KindOfId(id) == ExecutionDataEnd <==> id == 55) && (KindOfId(id) == CommissionsReport <==> id == 59)
    ensures (KindOfId(id) == CompletedOrder <==> id == 101) && (KindOfId(id) == CompletedOrdersEnd <==> id == 102)
  {
  }

  // ---- outbound ----

  predicate IsOutgoingId(id: int) {
    1 <= id <= 25 || 49 <= id <= 59 || 61 <= id <= 109
  }

  /** An outbound opcode, as the number it has on the wire. */
  type OutgoingId = id: Int32 | IsOutgoingId(id) witness 71

  const START_API: OutgoingId := 71

  function ParseOutgoing(s: string): (r: Option<OutgoingId>) {
    match ParseInt32(s)
    case Some(n) => if IsOutgoingId(n) then Some(n) else None
    case None => None
  }

  lemma ParsePrintOutgoing(id: int)
    ensures ParseOutgoing(PrintInt(id))
         == if 1 <= id <= 25 || 49 <= id <= 59 || 61 <= id <= 109 then Some(id) else None
  {
    ParsePrintInt(id, -0x8000_0000, 0x7FFF_FFFF);
  }
}
