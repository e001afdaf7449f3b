/**
 `slow_fibonacci`: the doubly recursive Fibonacci function with its argument checks.
 Its results are compared with an independent linear definition, `Fib`, which walks
 the pairs of consecutive Fibonacci numbers.
 */
module Fibonacci {
  import opened Values
  import opened Errors
  import opened Decimal

  /** The pair (F(n), F(n + 1)), computed forwards from (0, 1). */
  function FibPair(n: nat): (p: (nat, nat))
  {
    if n == 0 then (0, 1) else var p := FibPair(n - 1); (p.1, p.0 + p.1)
  }

  /** The `n`-th Fibonacci number. */
  function Fib(n: nat): (f: nat)
  {
    FibPair(n).0
  }

  /** The linear definition satisfies the recurrence the slow function follows. */
  lemma FibRecurrence(n: nat)
    requires n >= 2
    ensures Fib(n) == Fib(n - 1) + Fib(n - 2)
  {
  }

  /**
   `slow_fibonacci(n)`: a non-`int` argument raises `TypeError`, a negative one
   `ValueError`; otherwise the result is the `n`-th Fibonacci number. For `n <= 1`
   the source returns `n` itself, so `True` and `False` come back as those `bool`s;
   every other result is an `int`.
   */
  function SlowFibonacci(n: Value): (r: Result<Value>)
    ensures !IsInt(n) ==> r == TypeErr("Expected integer, got " + TypeName(n))
    ensures IsInt(n) && AsInt(n) < 0 ==>
              r == ValueErr("Fibonacci is not defined for negative numbers: " + IntToString(AsInt(n)))
    ensures IsInt(n) && AsInt(n) >= 0 ==> r.Ok? && IsInt(r.value) && AsInt(r.value) == Fib(AsInt(n))
    ensures IsInt(n) && AsInt(n) >= 0 ==> (r.value.PyBool? <==> n.PyBool?)
    decreases if IsInt(n) && AsInt(n) > 0 then AsInt(n) else 0
  {
    if !IsInt(n) then
      TypeErr("Expected integer, got " + TypeName(n))
    else if AsInt(n) < 0 then
      ValueErr("Fibonacci is not defined for negative numbers: " + IntToString(AsInt(n)))
    else if AsInt(n) <= 1 then
      Ok(n)
    else
      var a := SlowFibonacci(PyInt(AsInt(n) - 1));
      var b := SlowFibonacci(PyInt(AsInt(n) - 2));
      FibRecurrence(AsInt(n));
      Ok(PyInt(AsInt(a.value) + AsInt(b.value)))
  }

  /** The first eleven Fibonacci numbers. */
  const FirstEleven: seq<nat> := [0, 1, 1, 2, 3, 5, 8, 13, 21, 34, 55]

  lemma TableRecurrence(k: nat)
    requires 2 <= k < |FirstEleven|
    ensures FirstEleven[k] == FirstEleven[k - 1] + FirstEleven[k - 2]
  {
  }

  lemma {:induction false} FibTable(k: nat)
    requires k < |FirstEleven|
    ensures Fib(k) == FirstEleven[k]
  {
    if k >= 2 {
      FibTable(k - 1);
      FibTable(k - 2);
      FibRecurrence(k);
      TableRecurrence(k);
    }
  }

  /** The values the test suite pins: 0, 1, 1, 2, 3, 5, 8, 13, 21, 34 and F(10) = 55. */
  lemma FirstValues(k: nat)
    requires k <= 10
    ensures SlowFibonacci(PyInt(k)) == Ok(PyInt(FirstEleven[k]))
  {
    FibTable(k);
  }

  /** `slow_fibonacci(-1)` and `slow_fibonacci("5")` raise the errors the tests expect. */
  lemma ErrorExamples()
    ensures SlowFibonacci(PyInt(-1)) == ValueErr("Fibonacci is not defined for negative numbers: -1")
    ensures SlowFibonacci(PyFloat(3.14)) == TypeErr("Expected integer, got float")
    ensures SlowFibonacci(PyStr("5")) == TypeErr("Expected integer, got str")
  {
    assert NatToString(1) == "1";
  }

  /**
   `True` and `False` are `int`s in Python, so `slow_fibonacci` accepts them, and being
   at most 1 they are returned as they are.
   */
  lemma BoolIsAccepted()
    ensures SlowFibonacci(PyBool(true)) == Ok(PyBool(true))
    ensures SlowFibonacci(PyBool(false)) == Ok(PyBool(false))
  {
  }

  /** The sequence never decreases: F(n) <= F(n + 1). */
  lemma {:induction false} FibMonotone(n: nat)
    ensures Fib(n) <= Fib(n + 1)
  {
    if n > 0 {
      assert Fib(n + 1) == Fib(n) + Fib(n - 1) by { FibRecurrence(n + 1); }
    }
  }
}
