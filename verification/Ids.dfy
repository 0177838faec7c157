/** Request and order ids, drawn by any number of threads. */
module Ids {
  import opened MachineInts

  const INITIAL_REQUEST_ID: Int32 := 9000

  /** An atomic counter. Its operations are single steps; what several threads do
      to it is one sequence of them. */
  class IdGenerator {
    var nextId: Int32

    constructor (start: Int32)
      ensures nextId == start
    {
      nextId := start;
    }

    method Next() returns (id: Int32)
      modifies this
      ensures id == old(nextId) && nextId == WrapInt32(old(nextId) + 1)
    {
      id := nextId;
      nextId := WrapInt32(nextId + 1);
    }

    method Set(value: Int32)
      modifies this
      ensures nextId == value
    {
      nextId := value;
    }
  }

  class ClientIdManager {
    const requestIds: IdGenerator
    const orderIds: IdGenerator

    constructor (initialOrderId: Int32)
      ensures fresh(requestIds) && fresh(orderIds) && Valid()
      ensures requestIds.nextId == 9000 && orderIds.nextId == initialOrderId
    {
      requestIds := new IdGenerator(INITIAL_REQUEST_ID);
      orderIds := new IdGenerator(initialOrderId);
    }

    ghost predicate Valid() {
      requestIds != orderIds
    }

    function State(): Counters
      reads requestIds, orderIds
    {
      Counters(requestIds.nextId, orderIds.nextId)
    }

    method NextRequestId() returns (id: Int32)
      requires Valid()
      modifies requestIds
      ensures (Drawn(id), State()) == Step(old(State()), DrawRequest)
    {
      id := requestIds.Next();
    }

    method NextOrderId() returns (id: Int32)
      requires Valid()
      modifies orderIds
      ensures (Drawn(id), State()) == Step(old(State()), DrawOrder)
    {
      id := orderIds.Next();
    }

    method SetOrderId(orderId: Int32)
      requires Valid()
      modifies orderIds
      ensures (Quiet, State()) == Step(old(State()), SetOrder(orderId))
    {
      orderIds.Set(orderId);
    }

    /** Runs the steps of all threads in the order the counters see them. */
    method Perform(ops: seq<Op>) returns (replies: seq<Reply>)
      requires Valid()
      modifies requestIds, orderIds
      ensures (replies, State()) == RunOps(old(State()), ops)
    {
      replies := [];
      for i := 0 to |ops|
        invariant (replies, State()) == RunOps(old(State()), ops[..i])
      {
        assert ops[..i + 1][..i] == ops[..i];
        var reply := Quiet;
        match ops[i] {
          case DrawRequest =>
            var id := NextRequestId();
            reply := Drawn(id);
          case DrawOrder =>
            var id := NextOrderId();
            reply := Drawn(id);
          case SetOrder(value) =>
            SetOrderId(value);
        }
        replies := replies + [reply];
      }
      assert ops[..|ops|] == ops;
    }
  }

  // ---- the counters as a state machine ----

  datatype Counters = Counters(request: Int32, order: Int32)

  /** A step of some thread. Which thread makes no difference to the counters. */
  datatype Op = DrawRequest | DrawOrder | SetOrder(value: Int32)

  datatype Reply = Drawn(id: Int32) | Quiet

  function Step(c: Counters, op: Op): (Reply, Counters) {
    match op
    case DrawRequest => (Drawn(c.request), c.(request := WrapInt32(c.request + 1)))
    case DrawOrder => (Drawn(c.order), c.(order := WrapInt32(c.order + 1)))
    case SetOrder(value) => (Quiet, c.(order := value))
  }

  function RunOps(c: Counters, ops: seq<Op>): (seq<Reply>, Counters) {
    if ops == [] then ([], c)
    else
      var before := RunOps(c, ops[..|ops| - 1]);
      var last := Step(before.1, ops[|ops| - 1]);
      (before.0 + [last.0], last.1)
  }

  /** How many steps draw an id of one kind. */
  function Draws(ops: seq<Op>, kind: Op): nat {
    if ops == [] then 0
    else Draws(ops[..|ops| - 1], kind) + if ops[|ops| - 1] == kind then 1 else 0
  }

  ghost predicate NoSets(ops: seq<Op>) {
    forall i :: 0 <= i < |ops| ==> !ops[i].SetOrder?
  }

  lemma WrapStep(start: Int32, k: nat)
    ensures WrapInt32(WrapInt32(start + k) + 1) == WrapInt32(start + k + 1)
  {
    WrapInt32SameIff(WrapInt32(start + k) + 1, start + k + 1);
  }

  lemma {:induction false} RequestCounter(c: Counters, ops: seq<Op>)
    ensures |RunOps(c, ops).0| == |ops|
    ensures RunOps(c, ops).1.request == WrapInt32(c.request + Draws(ops, DrawRequest))
  {
    if ops == [] {
    } else {
      RequestCounter(c, ops[..|ops| - 1]);
      WrapStep(c.request, Draws(ops[..|ops| - 1], DrawRequest));
    }
  }

  lemma {:induction false} OrderCounter(c: Counters, ops: seq<Op>)
    requires NoSets(ops)
    ensures |RunOps(c, ops).0| == |ops|
    ensures RunOps(c, ops).1.order == WrapInt32(c.order + Draws(ops, DrawOrder))
  {
    if ops == [] {
    } else {
      OrderCounter(c, ops[..|ops| - 1]);
      WrapStep(c.order, Draws(ops[..|ops| - 1], DrawOrder));
    }
  }

  lemma {:induction false} ReplyAt(c: Counters, ops: seq<Op>, i: nat)
    requires i < |ops|
    ensures |RunOps(c, ops).0| == |ops|
    ensures RunOps(c, ops).0[i] == Step(RunOps(c, ops[..i]).1, ops[i]).0
  {
    var init := ops[..|ops| - 1];
    if i < |init| {
      ReplyAt(c, init, i);
      assert init[..i] == ops[..i];
    } else {
      RequestCounter(c, init);
    }
  }

  /** The request ids drawn in any interleaving are consecutive, modulo 2^32, from the
      first: no order-id update comes between them. */
  lemma RequestIdsAreConsecutive(c: Counters, ops: seq<Op>, i: nat)
    requires i < |ops| && ops[i] == DrawRequest
    ensures |RunOps(c, ops).0| == |ops|
    ensures RunOps(c, ops).0[i] == Drawn(WrapInt32(c.request + Draws(ops[..i], DrawRequest)))
  {
    ReplyAt(c, ops, i);
    RequestCounter(c, ops[..i]);
  }

  /** So are the order ids drawn while no thread sets them. */
  lemma OrderIdsAreConsecutive(c: Counters, ops: seq<Op>, i: nat)
    requires i < |ops| && ops[i] == DrawOrder && NoSets(ops[..i])
    ensures |RunOps(c, ops).0| == |ops|
    ensures RunOps(c, ops).0[i] == Drawn(WrapInt32(c.order + Draws(ops[..i], DrawOrder)))
  {
    ReplyAt(c, ops, i);
    OrderCounter(c, ops[..i]);
  }

  /** After an update the order ids start again from its value. */
  lemma OrderIdsAfterSet(c: Counters, ops: seq<Op>, s: nat, i: nat)
    requires s < i < |ops| && ops[s].SetOrder? && ops[i] == DrawOrder && NoSets(ops[s + 1..i])
    ensures |RunOps(c, ops).0| == |ops|
    ensures RunOps(c, ops).0[i] == Drawn(WrapInt32(ops[s].value + Draws(ops[s + 1..i], DrawOrder)))
  {
    ReplyAt(c, ops, i);
    OrderCounterAfterSet(c, ops, s, i);
  }

  lemma OrderCounterAfterSet(c: Counters, ops: seq<Op>, s: nat, i: nat)
    requires s < i <= |ops| && ops[s].SetOrder? && NoSets(ops[s + 1..i])
    ensures RunOps(c, ops[..i]).1.order == WrapInt32(ops[s].value + Draws(ops[s + 1..i], DrawOrder))
  {
    RunOpsConcat(c, ops[..s + 1], ops[s + 1..i]);
    assert ops[..s + 1] + ops[s + 1..i] == ops[..i];
    CounterAfterSet(c, ops, s);
    OrderCounter(RunOps(c, ops[..s + 1]).1, ops[s + 1..i]);
  }

  lemma CounterAfterSet(c: Counters, ops: seq<Op>, s: nat)
    requires s < |ops| && ops[s].SetOrder?
    ensures RunOps(c, ops[..s + 1]).1.order == ops[s].value
  {
    assert ops[..s + 1][..s] == ops[..s];
  }

  lemma {:induction false} RunOpsConcat(c: Counters, a: seq<Op>, b: seq<Op>)
    ensures RunOps(c, a + b).1 == RunOps(RunOps(c, a).1, b).1
  {
    if b == [] {
      assert a + b == a;
    } else {
      var init := b[..|b| - 1];
      RunOpsConcat(c, a, init);
      assert (a + b)[..|a + b| - 1] == a + init;
    }
  }

  lemma {:induction false} DrawsBetween(ops: seq<Op>, kind: Op, i: nat, j: nat)
    requires i < j <= |ops| && ops[i] == kind
    ensures 1 <= Draws(ops[..j], kind) - Draws(ops[..i], kind) <= j - i
    decreases j
  {
    assert ops[..j][..j - 1] == ops[..j - 1];
    if i + 1 < j {
      DrawsBetween(ops, kind, i, j - 1);
    }
  }

  /** Two request ids drawn in one run are the same exactly when a multiple of 2^32 of
      them were drawn from the first to the second: never within 2^32 draws. */
  lemma RequestIdsDistinctIff(c: Counters, ops: seq<Op>, i: nat, j: nat)
    requires i < j < |ops| && ops[i] == DrawRequest && ops[j] == DrawRequest
    ensures |RunOps(c, ops).0| == |ops|
    ensures var between := Draws(ops[..j], DrawRequest) - Draws(ops[..i], DrawRequest);
            && between >= 1
            && (RunOps(c, ops).0[i] == RunOps(c, ops).0[j] <==> between % TWO_POW_32 == 0)
            && (between < TWO_POW_32 ==> RunOps(c, ops).0[i] != RunOps(c, ops).0[j])
  {
    RequestIdsAreConsecutive(c, ops, i);
    RequestIdsAreConsecutive(c, ops, j);
    DrawsBetween(ops, DrawRequest, i, j);
    WrapInt32SameIff(c.request + Draws(ops[..j], DrawRequest), c.request + Draws(ops[..i], DrawRequest));
  }

  lemma {:induction false} DrawsConcat(a: seq<Op>, b: seq<Op>, kind: Op)
    ensures Draws(a + b, kind) == Draws(a, kind) + Draws(b, kind)
  {
    if b == [] {
      assert a + b == a;
    } else {
      DrawsConcat(a, b[..|b| - 1], kind);
      assert (a + b)[..|a + b| - 1] == a + b[..|b| - 1];
    }
  }

  lemma WrapReturnsIff(n: Int32, k: nat)
    ensures WrapInt32(n + k) == n <==> k % TWO_POW_32 == 0
    ensures 1 <= k < TWO_POW_32 ==> WrapInt32(n + k) != n
  {
    assert WrapInt32(n) == n;
    WrapInt32SameIff(n + k, n);
    assert (n + k) - n == k;
  }

  /** Order ids likewise, whenever no thread sets them between the two draws. */
  lemma OrderIdsDistinctIff(c: Counters, ops: seq<Op>, i: nat, j: nat)
    requires i < j < |ops| && ops[i] == DrawOrder && ops[j] == DrawOrder && NoSets(ops[i..j])
    ensures |RunOps(c, ops).0| == |ops|
    ensures var between := Draws(ops[..j], DrawOrder) - Draws(ops[..i], DrawOrder);
            && between >= 1
            && (RunOps(c, ops).0[i] == RunOps(c, ops).0[j] <==> between % TWO_POW_32 == 0)
            && (between < TWO_POW_32 ==> RunOps(c, ops).0[i] != RunOps(c, ops).0[j])
  {
    var order := RunOps(c, ops[..i]).1.order;
    var between: int := Draws(ops[..j], DrawOrder) - Draws(ops[..i], DrawOrder);
    ReplyAt(c, ops, i);
    ReplyAt(c, ops, j);
    OrderBetween(c, ops, i, j);
    DrawsBetween(ops, DrawOrder, i, j);
    WrapReturnsIff(order, between);
  }

  /** The order counter at a later step, by the draws from an earlier one on. */
  lemma OrderBetween(c: Counters, ops: seq<Op>, i: nat, j: nat)
    requires i < j <= |ops| && NoSets(ops[i..j])
    ensures RunOps(c, ops[..j]).1.order
         == WrapInt32(RunOps(c, ops[..i]).1.order + (Draws(ops[..j], DrawOrder) - Draws(ops[..i], DrawOrder)))
  {
    assert ops[..i] + ops[i..j] == ops[..j];
    RunOpsConcat(c, ops[..i], ops[i..j]);
    DrawsConcat(ops[..i], ops[i..j], DrawOrder);
    OrderCounter(RunOps(c, ops[..i]).1, ops[i..j]);
  }
}
