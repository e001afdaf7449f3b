/**
 `nested_loops_processing(data)`: the squares of the even elements of a list of
 integers, in their original order. The source makes two passes (keep the even
 elements, then square them); the contract states the one-pass reading
 `[x * x for x in data if x % 2 == 0]`.
 */
module EvenSquares {
  import opened Values
  import opened Errors

  /** `x % 2 == 0`; for divisor 2 Python's floored remainder and Dafny's agree. */
  predicate IsEven(x: int)
  {
    x % 2 == 0
  }

  /** `[x * x for x in xs if x % 2 == 0]`. */
  function EvenSquares(xs: seq<int>): (ys: seq<int>)
  {
    if |xs| == 0 then [] else (if IsEven(xs[0]) then [xs[0] * xs[0]] else []) + EvenSquares(xs[1..])
  }

  /** The first pass: the even elements, in order. */
  function Evens(xs: seq<int>): (ys: seq<int>)
  {
    if |xs| == 0 then [] else (if IsEven(xs[0]) then [xs[0]] else []) + Evens(xs[1..])
  }

  /** The second pass: every element squared. */
  function Squares(xs: seq<int>): (ys: seq<int>)
  {
    seq(|xs|, i requires 0 <= i < |xs| => xs[i] * xs[i])
  }

  /** The integers an all-`int` list stands for. */
  function Ints(vs: seq<Value>): (xs: seq<int>)
    requires AllInts(vs)
    ensures |xs| == |vs|
  {
    seq(|vs|, i requires 0 <= i < |vs| => AsInt(vs[i]))
  }

  lemma {:induction false} EvensSnoc(xs: seq<int>, x: int)
    ensures Evens(xs + [x]) == Evens(xs) + (if IsEven(x) then [x] else [])
    decreases |xs|
  {
    var last := if IsEven(x) then [x] else [];
    if |xs| == 0 {
      assert xs + [x] == [x];
      assert Evens([x]) == last + Evens([]);
    } else {
      var head := if IsEven(xs[0]) then [xs[0]] else [];
      assert (xs + [x])[0] == xs[0];
      assert (xs + [x])[1..] == xs[1..] + [x];
      EvensSnoc(xs[1..], x);
      assert Evens(xs + [x]) == head + (Evens(xs[1..]) + last);
    }
  }

  lemma {:induction false} TwoPassesAreOne(xs: seq<int>)
    ensures Squares(Evens(xs)) == EvenSquares(xs)
    decreases |xs|
  {
    if |xs| > 0 {
      TwoPassesAreOne(xs[1..]);
      var head := if IsEven(xs[0]) then [xs[0]] else [];
      assert Evens(xs) == head + Evens(xs[1..]);
      assert Squares(head + Evens(xs[1..])) == Squares(head) + Squares(Evens(xs[1..]));
    }
  }

  /**
   `nested_loops_processing(data)`: anything but a list raises `TypeError`, and so
   does a list with a non-`int` element, before any work; otherwise the result is
   the squares of the even elements in order.
   */
  method NestedLoopsProcessing(data: Value) returns (r: Result<seq<int>>)
    ensures !data.PyList? ==> r == TypeErr("data must be a list, got " + TypeName(data))
    ensures data.PyList? && !AllInts(data.items) ==> r == TypeErr("All items in data must be integers")
    ensures data.PyList? && AllInts(data.items) ==> r == Ok(EvenSquares(Ints(data.items)))
  {
    if !data.PyList? {
      return TypeErr("data must be a list, got " + TypeName(data));
    }
    if !AllInts(data.items) {
      return TypeErr("All items in data must be integers");
    }
    var xs := Ints(data.items);
    var filtered := [];
    var i := 0;
    while i < |xs|
      invariant 0 <= i <= |xs|
      invariant filtered == Evens(xs[..i])
    {
      assert xs[..i + 1] == xs[..i] + [xs[i]];
      EvensSnoc(xs[..i], xs[i]);
      if xs[i] % 2 == 0 {
        filtered := filtered + [xs[i]];
      }
      i := i + 1;
    }
    assert xs[..|xs|] == xs;
    var result := [];
    var j := 0;
    while j < |filtered|
      invariant 0 <= j <= |filtered|
      invariant result == Squares(filtered[..j])
    {
      assert Squares(filtered[..j + 1]) == Squares(filtered[..j]) + [filtered[j] * filtered[j]];
      result := result + [filtered[j] * filtered[j]];
      j := j + 1;
    }
    assert filtered[..|filtered|] == filtered;
    TwoPassesAreOne(xs);
    return Ok(result);
  }

  /** The output is never longer than the input. */
  lemma {:induction false} NoLongerThanInput(xs: seq<int>)
    ensures |EvenSquares(xs)| <= |xs|
    decreases |xs|
  {
    if |xs| > 0 {
      NoLongerThanInput(xs[1..]);
    }
  }

  /** The output is empty exactly when every element is odd. */
  lemma {:induction false} EmptyIffAllOdd(xs: seq<int>)
    ensures EvenSquares(xs) == [] <==> forall i :: 0 <= i < |xs| ==> !IsEven(xs[i])
    decreases |xs|
  {
    if |xs| > 0 {
      EmptyIffAllOdd(xs[1..]);
      assert forall i :: 1 <= i < |xs| ==> xs[i] == xs[1..][i - 1];
    }
  }

  /** A number is in the output exactly when it is the square of an even element. */
  lemma {:induction false} Members(xs: seq<int>, y: int)
    ensures y in EvenSquares(xs) <==> exists i :: 0 <= i < |xs| && IsEven(xs[i]) && y == xs[i] * xs[i]
    decreases |xs|
  {
    if |xs| > 0 {
      Members(xs[1..], y);
      if exists i :: 0 <= i < |xs| && IsEven(xs[i]) && y == xs[i] * xs[i] {
        var i :| 0 <= i < |xs| && IsEven(xs[i]) && y == xs[i] * xs[i];
        if i > 0 {
          assert xs[1..][i - 1] == xs[i];
        }
      }
      if y in EvenSquares(xs[1..]) {
        var i :| 0 <= i < |xs[1..]| && IsEven(xs[1..][i]) && y == xs[1..][i] * xs[1..][i];
        assert xs[i + 1] == xs[1..][i];
      }
    }
  }

  /** Order is kept: processing two lists one after the other gives the concatenated outputs. */
  lemma {:induction false} KeepsOrder(a: seq<int>, b: seq<int>)
    ensures EvenSquares(a + b) == EvenSquares(a) + EvenSquares(b)
    decreases |a|
  {
    if |a| == 0 {
      assert a + b == b;
    } else {
      var head := if IsEven(a[0]) then [a[0] * a[0]] else [];
      assert (a + b)[0] == a[0];
      assert (a + b)[1..] == a[1..] + b;
      KeepsOrder(a[1..], b);
      assert EvenSquares(a + b) == head + (EvenSquares(a[1..]) + EvenSquares(b));
    }
  }

  /** The lists the tests pin. */
  lemma AllEvenExample()
    ensures EvenSquares([2, 4, 6]) == [4, 16, 36]
  {
    assert [2, 4, 6][1..] == [4, 6] && [4, 6][1..] == [6] && [6][1..] == [];
  }

  lemma AllOddExample()
    ensures EvenSquares([1, 3, 5]) == []
  {
    assert [1, 3, 5][1..] == [3, 5] && [3, 5][1..] == [5] && [5][1..] == [];
  }

  lemma MixedExample()
    ensures EvenSquares([1, 2, 3, 4, 5, 6]) == [4, 16, 36]
  {
    KeepsOrder([1, 2, 3], [4, 5, 6]);
    assert [1, 2, 3] + [4, 5, 6] == [1, 2, 3, 4, 5, 6];
    assert [1, 2, 3][1..] == [2, 3] && [2, 3][1..] == [3] && [3][1..] == [];
    assert [4, 5, 6][1..] == [5, 6] && [5, 6][1..] == [6] && [6][1..] == [];
  }

  lemma DescendingExample()
    ensures EvenSquares([10, 8, 6, 4, 2]) == [100, 64, 36, 16, 4]
  {
    KeepsOrder([10, 8], [6, 4, 2]);
    assert [10, 8] + [6, 4, 2] == [10, 8, 6, 4, 2];
    assert [10, 8][1..] == [8] && [8][1..] == [];
    assert [6, 4, 2][1..] == [4, 2] && [4, 2][1..] == [2] && [2][1..] == [];
  }

  lemma ZeroExample()
    ensures 0 in EvenSquares([0, 1, 2])
  {
    Members([0, 1, 2], 0);
    assert IsEven([0, 1, 2][0]);
  }
}
