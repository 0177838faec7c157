/** The delays between reconnection attempts. */
module Backoff {

  function Fib(n: nat): nat {
    if n < 2 then n else Fib(n - 2) + Fib(n - 1)
  }

  const MAX_DELAY: nat := 30

  /** The delay in seconds before attempt `k`, counting from 0. */
  function Delay(k: nat): nat {
    if Fib(k + 2) > MAX_DELAY then MAX_DELAY else Fib(k + 2)
  }

  lemma {:induction false} FibGrows(n: nat, m: nat)
    requires n <= m
    ensures Fib(n) <= Fib(m)
    decreases m - n
  {
    if n < m {
      FibGrows(n, m - 1);
    }
  }

  /** The delays in seconds: 1, 2, 3, 5, 8, 13, 21, and 30 from then on. */
  lemma DelaysAre(k: nat)
    ensures Delay(k) == if k < 7 then [1, 2, 3, 5, 8, 13, 21][k] else 30
  {
    assert Fib(2) == 1 && Fib(3) == 2 && Fib(4) == 3 && Fib(5) == 5;
    assert Fib(6) == 8 && Fib(7) == 13 && Fib(8) == 21 && Fib(9) == 34;
    if k >= 7 {
      FibGrows(9, k + 2);
    }
  }

  /** What is done to open a socket, in order. */
  datatype Opening = Slept(seconds: nat) | Tried

  /** `n` attempts to open a socket, from attempt `from` on: each sleeps, then tries. */
  function Openings(from: nat, n: nat): (os: seq<Opening>)
    ensures |os| == 2 * n
    decreases n
  {
    if n == 0 then [] else [Slept(Delay(from)), Tried] + Openings(from + 1, n - 1)
  }

  lemma {:induction false} OpeningAt(from: nat, n: nat, k: nat)
    requires k < n
    ensures Openings(from, n)[2 * k] == Slept(Delay(from + k)) && Openings(from, n)[2 * k + 1] == Tried
    decreases k
  {
    if k == 0 {
    } else {
      OpeningAt(from + 1, n - 1, k - 1);
    }
  }

  class FibonacciBackoff {
    var previous: nat
    var current: nat
    const max: nat

    ghost predicate After(k: nat)
      reads this
    {
      previous == Fib(k) && current == Fib(k + 1)
    }

    constructor (max: nat)
      ensures After(0) && this.max == max
    {
      previous, current := 0, 1;
      this.max := max;
    }

    method NextDelay(ghost k: nat) returns (delay: nat)
      requires After(k)
      modifies this
      ensures After(k + 1)
      ensures delay == if Fib(k + 2) > max then max else Fib(k + 2)
    {
      var next := previous + current;
      previous := current;
      current := next;
      delay := if next > max then max else next;
    }
  }
}
