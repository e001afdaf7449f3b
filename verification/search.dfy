/**
 `slow_search(items, target)`: a linear scan for an element `==` to `target`,
 stopping at the first match.
 */
module Search {
  import opened Values
  import opened Errors

  /** Some element of `xs` is `==` to `target`. */
  predicate Contains(xs: seq<Value>, target: Value)
  {
    exists i :: 0 <= i < |xs| && PyEq(xs[i], target)
  }

  /**
   `slow_search(items, target)`: anything but a list raises `TypeError`; for a list
   the answer is whether some element equals `target`.
   */
  method SlowSearch(items: Value, target: Value) returns (r: Result<bool>)
    ensures !items.PyList? ==> r == TypeErr("items must be a list, got " + TypeName(items))
    ensures items.PyList? ==> r.Ok? && (r.value <==> Contains(items.items, target))
  {
    if !items.PyList? {
      return TypeErr("items must be a list, got " + TypeName(items));
    }
    var xs := items.items;
    var found := false;
    var i := 0;
    while i < |xs|
      invariant 0 <= i <= |xs|
      invariant forall j :: 0 <= j < i ==> !PyEq(xs[j], target)
    {
      if PyEq(xs[i], target) {
        found := true;
        break;
      }
      i := i + 1;
    }
    return Ok(found);
  }

  /** Searching the empty list finds nothing. */
  lemma EmptyListHasNothing(target: Value)
    ensures !Contains([], target)
  {
  }

  /** The cases the tests pin: a hit at either end, a miss, strings, and a duplicated target. */
  lemma SearchExamples()
    ensures Contains([PyInt(1), PyInt(2), PyInt(3), PyInt(4), PyInt(5)], PyInt(1))
    ensures Contains([PyInt(1), PyInt(2), PyInt(3), PyInt(4), PyInt(5)], PyInt(5))
    ensures Contains([PyStr("a"), PyStr("b"), PyStr("c")], PyStr("b"))
    ensures Contains([PyInt(1), PyInt(2), PyInt(2), PyInt(3)], PyInt(2))
  {
    var five := [PyInt(1), PyInt(2), PyInt(3), PyInt(4), PyInt(5)];
    assert PyEq(five[0], PyInt(1)) && PyEq(five[4], PyInt(5));
    assert PyEq([PyStr("a"), PyStr("b"), PyStr("c")][1], PyStr("b"));
    assert PyEq([PyInt(1), PyInt(2), PyInt(2), PyInt(3)][1], PyInt(2));
  }

  /** The misses the tests pin. */
  lemma MissExamples()
    ensures !Contains([PyInt(1), PyInt(2), PyInt(3), PyInt(4), PyInt(5)], PyInt(10))
    ensures !Contains([PyStr("a"), PyStr("b"), PyStr("c")], PyStr("z"))
  {
  }

  /** Python's cross-type equality: `1.0` and `True` both find `1`. */
  lemma CrossTypeExamples()
    ensures Contains([PyInt(1), PyInt(2)], PyFloat(1.0)) && Contains([PyInt(1), PyInt(2)], PyBool(true))
  {
    assert PyEq([PyInt(1), PyInt(2)][0], PyFloat(1.0));
    assert PyEq([PyInt(1), PyInt(2)][0], PyBool(true));
  }
}
