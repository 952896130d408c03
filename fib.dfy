/** The Fibonacci web worker: the naive doubly recursive `fib`, and the message handler that
    answers a `CALCULATE_FIBONACCI` request with `fib(number)` and ignores anything else. */
module FibWorker {
  import opened Wrappers

  /** `fib(n)`: `n` itself up to 1 (negative numbers included), the sum of the two before
      it above. */
  function Fib(n: int): (r: int)
    ensures n <= 1 ==> r == n
    ensures n >= 0 ==> r >= 0
    decreases n
  {
    if n <= 1 then n else Fib(n - 1) + Fib(n - 2)
  }

  /** A reference definition that walks up from `(0, 1)` once: `(fib(n), fib(n + 1))`. */
  function FibPair(n: nat): (int, int) {
    if n == 0 then (0, 1) else var p := FibPair(n - 1); (p.1, p.0 + p.1)
  }

  /** The naive recursion computes the same numbers as the linear walk. */
  lemma {:induction false} FibIsFibPair(n: nat)
    ensures FibPair(n) == (Fib(n), Fib(n + 1))
  {
    if n > 0 {
      FibIsFibPair(n - 1);
      assert FibPair(n) == (FibPair(n - 1).1, FibPair(n - 1).0 + FibPair(n - 1).1);
      assert Fib(n + 1) == Fib(n) + Fib(n - 1);
    }
  }

  /** The recurrence, for every `n >= 2`. */
  lemma {:induction false} FibRecurrence(n: int)
    requires n >= 2
    ensures Fib(n) == Fib(n - 1) + Fib(n - 2)
  {
  }

  /** From 1 on, the numbers never decrease. */
  lemma {:induction false} FibMonotone(m: int, n: int)
    requires 1 <= m <= n
    ensures Fib(m) <= Fib(n)
    decreases n - m
  {
    if m < n {
      FibMonotone(m, n - 1);
      assert Fib(n) == Fib(n - 1) + Fib(n - 2);
    }
  }

  function Pow2(n: nat): nat {
    if n == 0 then 1 else 2 * Pow2(n - 1)
  }

  /** `fib(n) < 2^n`: up to `n = 53` the result is an integer a JavaScript number holds
      exactly. */
  lemma {:induction false} FibBelowPow2(n: nat)
    ensures Fib(n) < Pow2(n)
  {
    if n >= 2 {
      FibBelowPow2(n - 1);
      FibBelowPow2(n - 2);
      assert Pow2(n) == 2 * Pow2(n - 1) == 4 * Pow2(n - 2);
    }
  }

  /** The request the main thread posts. */
  datatype Request = Request(kind: string, number: int)

  /** The reply the worker posts back; the elapsed time is not modelled. */
  datatype Reply = Reply(result: int)

  const CalculateFibonacci: string := "CALCULATE_FIBONACCI"

  /** `self.onmessage`: `None` is "no reply". */
  function OnMessage(m: Request): (r: Option<Reply>)
    ensures r.None? <==> m.kind != CalculateFibonacci
    ensures r.Some? && m.number >= 0 ==> r.value.result == FibPair(m.number as nat).0
    ensures r.Some? && m.number <= 1 ==> r.value.result == m.number
  {
    if m.kind != CalculateFibonacci then None
    else
      FibIsFibPairOf(m.number);
      Some(Reply(Fib(m.number)))
  }

  lemma {:induction false} FibIsFibPairOf(n: int)
    ensures n >= 0 ==> Fib(n) == FibPair(n as nat).0
  {
    if n >= 0 {
      FibIsFibPair(n);
    }
  }

  /** A request answers with `fib` of its number, whatever the number. */
  lemma {:induction false} ReplyIsFib(n: int)
    ensures OnMessage(Request(CalculateFibonacci, n)) == Some(Reply(Fib(n)))
  {
  }
}
