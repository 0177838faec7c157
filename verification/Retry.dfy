/** Retrying a one-shot request when the connection resets. */
module Retry {
  import opened Wrappers
  import opened MachineInts
  import opened Errors
  import opened Messages
  import opened Ids

  const DEFAULT_MAX_RETRIES: UInt32 := 3

  // ---- which attempt decides ----

  predicate IsReset<R>(outcome: Result<R, Error>) {
    outcome.Failure? && outcome.error == ConnectionReset
  }

  /** Attempt `n`, counting from 0, decides: no earlier one did anything but reset, and
      it did something else or is the last one allowed. */
  ghost predicate Decides<R>(outcomes: nat -> Result<R, Error>, maxRetries: nat, n: nat) {
    && n <= maxRetries
    && (forall k: nat :: k < n ==> IsReset(outcomes(k)))
    && (!IsReset(outcomes(n)) || n == maxRetries)
  }

  /** Exactly one attempt decides. */
  lemma {:induction false} OneDecides<R>(outcomes: nat -> Result<R, Error>, maxRetries: nat, from: nat) returns (n: nat)
    requires from <= maxRetries && forall k: nat :: k < from ==> IsReset(outcomes(k))
    ensures Decides(outcomes, maxRetries, n)
    ensures forall m: nat :: Decides(outcomes, maxRetries, m) ==> m == n
    decreases maxRetries - from
  {
    if IsReset(outcomes(from)) && from < maxRetries {
      n := OneDecides(outcomes, maxRetries, from + 1);
    } else {
      n := from;
    }
  }

  // ---- the operation ----

  /** What the message bus does with one request: whether it takes it, and what comes
      back, if anything does. */
  datatype Exchange = Exchange(sent: Result<(), Error>, reply: Option<Result<Message, Error>>)

  /** The closure that is retried: it draws a request id when it has a counter to draw
      from, encodes, sends, and takes the reply. The bus answers call `k` with `bus(k)`. */
  class Operation<R> {
    const ids: IdGenerator?
    const encoder: Option<Int32> -> Result<Bytes, Error>
    const processor: Message -> Result<R, Error>
    const onNone: Result<R, Error>
    const bus: nat -> Exchange
    var calls: nat
    /** The ids the encoder has been given, in order. */
    ghost var encoded: seq<Option<Int32>>

    constructor (ids: IdGenerator?, encoder: Option<Int32> -> Result<Bytes, Error>,
                 processor: Message -> Result<R, Error>, onNone: Result<R, Error>, bus: nat -> Exchange)
      ensures this.ids == ids && this.encoder == encoder && this.processor == processor
      ensures this.onNone == onNone && this.bus == bus && calls == 0 && encoded == []
    {
      this.ids, this.encoder, this.processor, this.onNone, this.bus := ids, encoder, processor, onNone, bus;
      calls := 0;
      encoded := [];
    }

    /** The request id of a draw, `k` draws after `start`; none without a counter. */
    ghost function IdAfter(start: Int32, k: nat): Option<Int32> {
      if ids == null then None else Some(WrapInt32(start + k))
    }

    ghost function CurrentId(): Int32
      reads ids
    {
      if ids == null then 0 else ids.nextId
    }

    /** The outcome of call `k` with a given id. */
    ghost function OutcomeOf(k: nat, id: Option<Int32>): Result<R, Error> {
      match encoder(id)
      case Failure(error) => Failure(error)
      case Success(_) =>
        match bus(k).sent
        case Failure(error) => Failure(error)
        case Success(_) =>
          match bus(k).reply
          case None => onNone
          case Some(Failure(error)) => Failure(error)
          case Some(Success(message)) => processor(message)
    }

    /** The outcomes of this call and those that would follow it, with no one else
        drawing ids: each with a fresh id, consecutive from the counter's. */
    ghost function OutcomesFrom(call: nat, start: Int32): nat -> Result<R, Error> {
      (k: nat) => OutcomeOf(call + k, IdAfter(start, k))
    }

    method Call() returns (r: Result<R, Error>)
      modifies this, ids
      ensures calls == old(calls) + 1
      ensures ids != null ==> ids.nextId == WrapInt32(old(CurrentId()) + 1)
      ensures r == OutcomeOf(old(calls), IdAfter(old(CurrentId()), 0))
      ensures var id := if ids == null then None else Some(old(CurrentId()));
              && encoded == old(encoded) + [id]
              && (encoder(id).Failure? ==> r == Failure(encoder(id).error))
              && (encoder(id).Success? ==>
                    match bus(old(calls)).sent
                    case Failure(error) => r == Failure(error)
                    case Success(_) =>
                      match bus(old(calls)).reply
                      case None => r == onNone
                      case Some(Failure(error)) => r == Failure(error)
                      case Some(Success(message)) => r == processor(message))
    {
      var exchange := bus(calls);
      calls := calls + 1;
      var id: Option<Int32> := None;
      if ids != null {
        var drawn := ids.Next();
        id := Some(drawn);
      }
      encoded := encoded + [id];
      var request :- encoder(id);
      var _ :- exchange.sent;
      match exchange.reply {
        case Some(Success(message)) => r := processor(message);
        case Some(Failure(error)) => r := Failure(error);
        case None => r := onNone;
      }
    }
  }

  lemma WrapAgain(start: Int32, k: nat)
    ensures WrapInt32(WrapInt32(start + k) + 1) == WrapInt32(start + k + 1)
    ensures WrapInt32(WrapInt32(start + k)) == WrapInt32(start + k)
  {
    WrapStep(start, k);
  }

  /** The ids of `n` attempts with no one else drawing: consecutive, or none at all. */
  function Consecutive(drawing: bool, start: Int32, n: nat): (ids: seq<Option<Int32>>)
    ensures |ids| == n
    ensures forall k :: 0 <= k < n ==> ids[k] == if drawing then Some(WrapInt32(start + k)) else None
  {
    seq(n, k requires 0 <= k < n => if drawing then Some(WrapInt32(start + k)) else None)
  }

  lemma OneMoreId(drawing: bool, start: Int32, n: nat)
    ensures Consecutive(drawing, start, n + 1)
         == Consecutive(drawing, start, n) + [if drawing then Some(WrapInt32(start + n)) else None]
  {
  }

  /** An attempt that comes back as a reset, in sending or in the reply. */
  ghost predicate Resets(exchange: Exchange) {
    || exchange.sent == Failure(ConnectionReset)
    || (exchange.sent.Success? && exchange.reply == Some(Failure(ConnectionReset)))
  }

  /** The encoder accepts every id of an attempt, the first `n` exchanges reset, and the
      next one brings a message whose processing is no reset. */
  ghost predicate AnsweredAfter<R>(operation: Operation<R>, call: nat, start: Int32, n: nat, message: Message) {
    && (forall id :: id in Consecutive(operation.ids != null, start, n + 1) ==> operation.encoder(id).Success?)
    && (forall k :: call <= k < call + n ==> Resets(operation.bus(k)))
    && operation.bus(call + n).sent.Success?
    && operation.bus(call + n).reply == Some(Success(message))
    && !IsReset(operation.processor(message))
  }

  lemma AnsweredDecides<R>(operation: Operation<R>, call: nat, start: Int32, n: nat, message: Message)
    requires AnsweredAfter(operation, call, start, n, message)
    ensures var outcomes := operation.OutcomesFrom(call, start);
            && (forall k: nat :: k < n ==> IsReset(outcomes(k)))
            && outcomes(n) == operation.processor(message)
  {
    var outcomes := operation.OutcomesFrom(call, start);
    forall k: nat | k <= n
      ensures operation.encoder(operation.IdAfter(start, k)).Success?
    {
      assert Consecutive(operation.ids != null, start, n + 1)[k] == operation.IdAfter(start, k);
    }
    forall k: nat | k < n
      ensures IsReset(outcomes(k))
    {
      assert Resets(operation.bus(call + k));
    }
  }

  lemma AnswerIsResult<R>(operation: Operation<R>, call: nat, start: Int32, maxRetries: nat, m: nat)
    requires Decides(operation.OutcomesFrom(call, start), maxRetries, m)
    ensures forall n: nat, message :: n <= maxRetries && AnsweredAfter(operation, call, start, n, message) ==>
              n == m && operation.OutcomesFrom(call, start)(m) == operation.processor(message)
  {
    forall n: nat, message | n <= maxRetries && AnsweredAfter(operation, call, start, n, message)
      ensures n == m && operation.OutcomesFrom(call, start)(m) == operation.processor(message)
    {
      AnsweredDecides(operation, call, start, n, message);
    }
  }

  /** Calls the operation until it does something else than reset, at most
      `maxRetries + 1` times: it returns the outcome of the attempt that decides, having
      made that many calls and no more, each with the next request id. When resets in
      sending or in the reply come before a message, it is the message that decides. */
  method RetryOnConnectionResetWithLimit<R>(operation: Operation<R>, maxRetries: UInt32) returns (r: Result<R, Error>)
    modifies operation, operation.ids
    ensures old(operation.calls) < operation.calls <= old(operation.calls) + maxRetries + 1
    ensures var n := operation.calls - old(operation.calls) - 1;
            var outcomes := operation.OutcomesFrom(old(operation.calls), old(operation.CurrentId()));
            && Decides(outcomes, maxRetries, n)
            && r == outcomes(n)
            && (operation.ids != null ==> operation.ids.nextId == WrapInt32(old(operation.CurrentId()) + n + 1))
            && operation.encoded
               == old(operation.encoded) + Consecutive(operation.ids != null, old(operation.CurrentId()), n + 1)
    ensures forall n: nat, message ::
              n <= maxRetries
              && AnsweredAfter(operation, old(operation.calls), old(operation.CurrentId()), n, message) ==>
                operation.calls == old(operation.calls) + n + 1 && r == operation.processor(message)
  {
    var attempts := 0;
    ghost var start, first := operation.CurrentId(), operation.calls;
    ghost var outcomes := operation.OutcomesFrom(first, start);
    while true
      invariant 0 <= attempts <= maxRetries
      invariant operation.calls == first + attempts
      invariant operation.encoded == old(operation.encoded) + Consecutive(operation.ids != null, start, attempts)
      invariant operation.ids != null ==> operation.ids.nextId == WrapInt32(start + attempts)
      invariant forall k: nat :: k < attempts ==> IsReset(outcomes(k))
      decreases maxRetries - attempts
    {
      WrapAgain(start, attempts);
      OneMoreId(operation.ids != null, start, attempts);
      r := operation.Call();
      assert r == outcomes(attempts);
      if r.Failure? && r.error == ConnectionReset && attempts < maxRetries {
        attempts := attempts + 1;
        continue;
      }
      AnswerIsResult(operation, first, start, maxRetries, attempts);
      return r;
    }
  }

  method RetryOnConnectionReset<R>(operation: Operation<R>) returns (r: Result<R, Error>)
    modifies operation, operation.ids
    ensures old(operation.calls) < operation.calls <= old(operation.calls) + 4
    ensures var n := operation.calls - old(operation.calls) - 1;
            var outcomes := operation.OutcomesFrom(old(operation.calls), old(operation.CurrentId()));
            && Decides(outcomes, 3, n)
            && r == outcomes(n)
            && (operation.ids != null ==> operation.ids.nextId == WrapInt32(old(operation.CurrentId()) + n + 1))
    ensures forall n: nat, message ::
              n <= 3 && AnsweredAfter(operation, old(operation.calls), old(operation.CurrentId()), n, message) ==>
                operation.calls == old(operation.calls) + n + 1 && r == operation.processor(message)
  {
    r := RetryOnConnectionResetWithLimit(operation, DEFAULT_MAX_RETRIES);
  }
}
