/**
 `repeated_calculations(data, threshold)`: when the list is longer than `threshold`,
 a dictionary from every element above `threshold` to its ratio to the list's
 average. Floats are exact reals here, so the ratios are exact quotients, not the
 rounded values Python computes.
 */
module RepeatedCalculations {
  import opened Values
  import opened Errors
  import opened Decimal
  import opened Dicts

  /** The default value of `threshold`. */
  const DefaultThreshold: int := 10

  /** An element that gets an entry: it is above the threshold. */
  predicate Above(v: Value, threshold: int)
    requires IsNumeric(v)
  {
    Num(v) > threshold as real
  }

  /** `sum(xs) / len(xs)`. */
  function Average(xs: seq<Value>): (avg: real)
    requires AllNumeric(xs) && |xs| > 0
  {
    Total(xs) / (|xs| as real)
  }

  /** The division of `value / avg` fails: an element is above the threshold and the average is 0. */
  predicate DividesByZero(xs: seq<Value>, threshold: int)
    requires AllNumeric(xs)
  {
    |xs| > threshold && (exists i :: 0 <= i < |xs| && Above(xs[i], threshold)) && Total(xs) == 0.0
  }

  /** The value filed for an element: `value / avg`. */
  function Ratio(xs: seq<Value>, v: Value): (q: Value)
    requires AllNumeric(xs) && |xs| > 0 && Total(xs) != 0.0 && IsNumeric(v)
  {
    PyFloat(Num(v) / Average(xs))
  }

  /**
   What the loop has filed after the first `n` elements: one entry per distinct
   element above the threshold, holding its ratio to the average, under the key
   object of the first such element (a later equal element only rewrites the value).
   */
  ghost predicate Filed(xs: seq<Value>, threshold: int, n: nat, d: Dict)
    requires AllNumeric(xs) && |xs| > 0 && Total(xs) != 0.0 && n <= |xs|
  {
    && FiledKeys(xs, threshold, n, d)
    && FiledRatios(xs, threshold, n, d)
    && FiledKeyObjects(xs, threshold, n, d)
  }

  /** Every key belongs to one of the first `n` elements above the threshold. */
  ghost predicate FiledKeys(xs: seq<Value>, threshold: int, n: nat, d: Dict)
    requires AllNumeric(xs) && n <= |xs|
  {
    forall k :: k in d ==> exists j :: 0 <= j < n && Above(xs[j], threshold) && Canon(xs[j]) == k
  }

  /** Each of the first `n` elements above the threshold has an entry holding its ratio. */
  ghost predicate FiledRatios(xs: seq<Value>, threshold: int, n: nat, d: Dict)
    requires AllNumeric(xs) && |xs| > 0 && Total(xs) != 0.0 && n <= |xs|
  {
    forall j :: 0 <= j < n && Above(xs[j], threshold) ==> Canon(xs[j]) in d && d[Canon(xs[j])].val == Ratio(xs, xs[j])
  }

  /** An entry is filed under the first element equal to it. */
  ghost predicate FiledKeyObjects(xs: seq<Value>, threshold: int, n: nat, d: Dict)
    requires AllNumeric(xs) && n <= |xs|
  {
    forall j :: 0 <= j < n && Above(xs[j], threshold) && FirstOfItsValue(xs, j) && Canon(xs[j]) in d ==> d[Canon(xs[j])].key == xs[j]
  }

  /** The dictionary a successful call returns for a list longer than the threshold with a non-zero sum. */
  ghost predicate RatioTable(xs: seq<Value>, threshold: int, d: Dict)
    requires AllNumeric(xs)
  {
    |xs| > 0 && Total(xs) != 0.0 && Filed(xs, threshold, |xs|, d)
  }

  lemma CanonOfNumber(v: Value)
    requires IsNumeric(v)
    ensures Canon(v) == KNum(Num(v))
  {
  }

  lemma FileKeysStep(xs: seq<Value>, threshold: int, i: nat, d: Dict, w: Value)
    requires AllNumeric(xs) && i < |xs| && Above(xs[i], threshold)
    requires FiledKeys(xs, threshold, i, d)
    ensures FiledKeys(xs, threshold, i + 1, Store(d, xs[i], w))
  {
    forall k | k in Store(d, xs[i], w)
      ensures exists j :: 0 <= j < i + 1 && Above(xs[j], threshold) && Canon(xs[j]) == k
    {
      if k != Canon(xs[i]) {
        var j :| 0 <= j < i && Above(xs[j], threshold) && Canon(xs[j]) == k;
      }
    }
  }

  lemma FileRatiosStep(xs: seq<Value>, threshold: int, i: nat, d: Dict)
    requires AllNumeric(xs) && |xs| > 0 && Total(xs) != 0.0 && i < |xs| && Above(xs[i], threshold)
    requires FiledRatios(xs, threshold, i, d)
    ensures FiledRatios(xs, threshold, i + 1, Store(d, xs[i], Ratio(xs, xs[i])))
  {
    var v := xs[i];
    var d' := Store(d, v, Ratio(xs, v));
    forall j | 0 <= j < i + 1 && Above(xs[j], threshold)
      ensures Canon(xs[j]) in d' && d'[Canon(xs[j])].val == Ratio(xs, xs[j])
    {
      CanonOfNumber(xs[j]);
      CanonOfNumber(v);
    }
  }

  lemma FileKeyObjectsStep(xs: seq<Value>, threshold: int, i: nat, d: Dict, w: Value)
    requires AllNumeric(xs) && |xs| > 0 && Total(xs) != 0.0 && i < |xs| && Above(xs[i], threshold)
    requires Filed(xs, threshold, i, d)
    ensures FiledKeyObjects(xs, threshold, i + 1, Store(d, xs[i], w))
  {
    var v := xs[i];
    var d' := Store(d, v, w);
    forall j | 0 <= j < i + 1 && Above(xs[j], threshold) && FirstOfItsValue(xs, j) && Canon(xs[j]) in d'
      ensures d'[Canon(xs[j])].key == xs[j]
    {
      if j < i {
        assert Canon(xs[j]) in d;
        assert d[Canon(xs[j])].key == xs[j];
      } else {
        assert Canon(v) !in d;
      }
    }
  }

  /** Filing the element at index `i` (above the threshold) extends what is filed by one element. */
  lemma FileStep(xs: seq<Value>, threshold: int, i: nat, d: Dict)
    requires AllNumeric(xs) && |xs| > 0 && Total(xs) != 0.0 && i < |xs|
    requires Above(xs[i], threshold) && Filed(xs, threshold, i, d)
    ensures Filed(xs, threshold, i + 1, Store(d, xs[i], Ratio(xs, xs[i])))
  {
    FileKeysStep(xs, threshold, i, d, Ratio(xs, xs[i]));
    FileRatiosStep(xs, threshold, i, d);
    FileKeyObjectsStep(xs, threshold, i, d, Ratio(xs, xs[i]));
  }

  /** Skipping the element at index `i` (not above the threshold) files nothing new. */
  lemma SkipStep(xs: seq<Value>, threshold: int, i: nat, d: Dict)
    requires AllNumeric(xs) && |xs| > 0 && Total(xs) != 0.0 && i < |xs|
    requires !Above(xs[i], threshold) && Filed(xs, threshold, i, d)
    ensures Filed(xs, threshold, i + 1, d)
  {
  }

  /**
   `repeated_calculations(data, threshold)`: the argument checks in source order, then
   an empty dictionary when the list is not longer than `threshold`, a
   `ZeroDivisionError` when the average of a list with an element above the threshold
   is 0, and otherwise the table of ratios.
   */
  method RepeatedCalculations(data: Value, threshold: int) returns (r: Result<Dict>)
    ensures !data.PyList? ==> r == TypeErr("data must be a list, got " + TypeName(data))
    ensures data.PyList? && !AllNumeric(data.items) ==> r == TypeErr("All items in data must be numeric")
    ensures data.PyList? && AllNumeric(data.items) && threshold < 0 ==>
              r == ValueErr("threshold must be non-negative, got " + IntToString(threshold))
    ensures data.PyList? && AllNumeric(data.items) && threshold >= 0 ==>
              (r.Raise? <==> DividesByZero(data.items, threshold))
    ensures data.PyList? && AllNumeric(data.items) && threshold >= 0 && DividesByZero(data.items, threshold) ==>
              r == Raise(Exception(ZeroDivisionError, "float division by zero"))
    ensures r.Ok? ==> WellFormed(r.value)
    ensures r.Ok? && |data.items| <= threshold ==> r.value == map[]
    ensures r.Ok? && |data.items| > threshold && Total(data.items) == 0.0 ==> r.value == map[]
    ensures r.Ok? && |data.items| > threshold && Total(data.items) != 0.0 ==> RatioTable(data.items, threshold, r.value)
  {
    if !data.PyList? {
      return TypeErr("data must be a list, got " + TypeName(data));
    }
    var xs := data.items;
    if !AllNumeric(xs) {
      return TypeErr("All items in data must be numeric");
    }
    if threshold < 0 {
      return ValueErr("threshold must be non-negative, got " + IntToString(threshold));
    }
    var results: Dict := map[];
    var i := 0;
    while i < |xs|
      invariant 0 <= i <= |xs|
      invariant WellFormed(results)
      invariant |xs| <= threshold || Total(xs) == 0.0 ==> results == map[]
      invariant |xs| > threshold && Total(xs) == 0.0 ==> forall j :: 0 <= j < i ==> !Above(xs[j], threshold)
      invariant |xs| > threshold && Total(xs) != 0.0 ==> Filed(xs, threshold, i, results)
    {
      if |xs| > threshold {
        if Num(xs[i]) > threshold as real {
          var avg := Total(xs) / (|xs| as real);
          if avg == 0.0 {
            return Raise(Exception(ZeroDivisionError, "float division by zero"));
          }
          FileStep(xs, threshold, i, results);
          StoreWellFormed(results, xs[i], PyFloat(Num(xs[i]) / avg));
          results := Store(results, xs[i], PyFloat(Num(xs[i]) / avg));
        } else if Total(xs) != 0.0 {
          SkipStep(xs, threshold, i, results);
        }
      }
      i := i + 1;
    }
    return Ok(results);
  }

  /** Every key is above the threshold, as the test over `range(20)` checks. */
  lemma KeysAboveThreshold(xs: seq<Value>, threshold: int, d: Dict)
    requires AllNumeric(xs) && RatioTable(xs, threshold, d)
    ensures forall k :: k in d ==> k.KNum? && k.r > threshold as real
  {
    forall k | k in d
      ensures k.KNum? && k.r > threshold as real
    {
      var i :| 0 <= i < |xs| && Above(xs[i], threshold) && Canon(xs[i]) == k;
      CanonOfNumber(xs[i]);
    }
  }

  /** The keys are exactly the elements above the threshold. */
  lemma KeySet(xs: seq<Value>, threshold: int, d: Dict)
    requires AllNumeric(xs) && RatioTable(xs, threshold, d)
    ensures d.Keys == (set i | 0 <= i < |xs| && Above(xs[i], threshold) :: Canon(xs[i]))
  {
  }

  lemma TotalOfThree(a: int, b: int, c: int)
    ensures Total([PyInt(a), PyInt(b), PyInt(c)]) == (a + b + c) as real
  {
    var xs := [PyInt(a), PyInt(b), PyInt(c)];
    assert [PyInt(a)][..0] == [];
    assert Total([PyInt(a)]) == a as real;
    assert [PyInt(a), PyInt(b)][..1] == [PyInt(a)];
    assert Total([PyInt(a), PyInt(b)]) == (a + b) as real;
    assert xs[..2] == [PyInt(a), PyInt(b)];
  }

  /** `repeated_calculations([15, 20, 25], threshold=2)` files all three, and 20 maps to 1.0. */
  lemma RatioExample(d: Dict)
    requires RatioTable([PyInt(15), PyInt(20), PyInt(25)], 2, d)
    ensures d.Keys == {KNum(15.0), KNum(20.0), KNum(25.0)}
    ensures d[KNum(20.0)].val == PyFloat(1.0)
  {
    var xs := [PyInt(15), PyInt(20), PyInt(25)];
    TotalOfThree(15, 20, 25);
    assert Average(xs) == 20.0;
    assert Canon(xs[0]) == KNum(15.0) && Canon(xs[1]) == KNum(20.0) && Canon(xs[2]) == KNum(25.0);
    assert Above(xs[0], 2) && Above(xs[1], 2) && Above(xs[2], 2);
  }

  /** `[-5, 5, 0]` with threshold 0: 5 is above it, the average is 0, and the division raises. */
  lemma ZeroAverageExample()
    ensures DividesByZero([PyInt(-5), PyInt(5), PyInt(0)], 0)
  {
    TotalOfThree(-5, 5, 0);
    assert Above([PyInt(-5), PyInt(5), PyInt(0)][1], 0);
  }

  /** `repeated_calculations([])` with the default threshold is `{}`: no `ValueError` for empty data. */
  method EmptyWithDefault() returns (r: Result<Dict>)
    ensures r == Ok(map[])
  {
    r := RepeatedCalculations(PyList([]), DefaultThreshold);
  }
}
