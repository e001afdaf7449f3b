/**
 The dynamically typed values that the functions of `inefficient_code.py` receive.

 Python checks the type of an argument at run time (`isinstance`), so each operation
 takes a `Value` and decides on its own what to accept. Only the kinds of object the
 module and its tests use are represented. A Python `float` is modelled by an exact
 `real`: rounding, NaN and the infinities are not part of this model.
 */
module Values {

  datatype Value =
    | PyNone
    | PyBool(b: bool)
    | PyInt(i: int)
    | PyFloat(x: real)
    | PyStr(s: string)
    | PyList(items: seq<Value>)
    | PyTuple(elems: seq<Value>)

  /** `type(v).__name__`, used in the error messages. */
  function TypeName(v: Value): (name: string)
  {
    match v
    case PyNone => "NoneType"
    case PyBool(_) => "bool"
    case PyInt(_) => "int"
    case PyFloat(_) => "float"
    case PyStr(_) => "str"
    case PyList(_) => "list"
    case PyTuple(_) => "tuple"
  }

  /** `isinstance(v, int)`: in Python `bool` is a subclass of `int`. */
  predicate IsInt(v: Value)
  {
    v.PyBool? || v.PyInt?
  }

  /** The integer an `int` instance stands for (`True` is 1, `False` is 0). */
  function AsInt(v: Value): (i: int)
    requires IsInt(v)
  {
    match v
    case PyBool(b) => if b then 1 else 0
    case PyInt(i) => i
  }

  /** `isinstance(v, (int, float))`. */
  predicate IsNumeric(v: Value)
  {
    IsInt(v) || v.PyFloat?
  }

  /** The number a numeric value stands for. */
  function Num(v: Value): (x: real)
    requires IsNumeric(v)
  {
    if v.PyFloat? then v.x else AsInt(v) as real
  }

  /**
   The canonical form of a value under Python's `==`: numbers of every kind compare
   by their value, strings by their characters, lists and tuples element-wise (but a
   list never equals a tuple), and `None` only equals `None`. Two values are `==`
   exactly when their canonical forms are equal, and a dictionary files a key under
   its canonical form.
   */
  datatype Key =
    | KNone
    | KNum(r: real)
    | KStr(s: string)
    | KList(ks: seq<Key>)
    | KTuple(ks: seq<Key>)

  function Canon(v: Value): (k: Key)
    decreases v
  {
    match v
    case PyNone => KNone
    case PyBool(_) => KNum(Num(v))
    case PyInt(_) => KNum(Num(v))
    case PyFloat(_) => KNum(Num(v))
    case PyStr(s) => KStr(s)
    case PyList(xs) => KList(seq(|xs|, i requires 0 <= i < |xs| => Canon(xs[i])))
    case PyTuple(xs) => KTuple(seq(|xs|, i requires 0 <= i < |xs| => Canon(xs[i])))
  }

  /** Python's `a == b` on the modelled values. */
  predicate PyEq(a: Value, b: Value)
  {
    Canon(a) == Canon(b)
  }

  /** Whether `hash(v)` succeeds: lists are unhashable, and so is a tuple holding one. */
  predicate Hashable(v: Value)
    decreases v
  {
    match v
    case PyList(_) => false
    case PyTuple(xs) => forall i :: 0 <= i < |xs| ==> Hashable(xs[i])
    case _ => true
  }

  /** Python's `==` on two lists: same length and element-wise `==`. */
  lemma ListEquality(xs: seq<Value>, ys: seq<Value>)
    ensures PyEq(PyList(xs), PyList(ys)) <==> |xs| == |ys| && forall i :: 0 <= i < |xs| ==> PyEq(xs[i], ys[i])
  {
    var cx := seq(|xs|, i requires 0 <= i < |xs| => Canon(xs[i]));
    var cy := seq(|ys|, i requires 0 <= i < |ys| => Canon(ys[i]));
    assert Canon(PyList(xs)) == KList(cx) && Canon(PyList(ys)) == KList(cy);
    if |xs| == |ys| && forall i :: 0 <= i < |xs| ==> PyEq(xs[i], ys[i]) {
      assert cx == cy;
    }
    if PyEq(PyList(xs), PyList(ys)) {
      assert cx == cy;
      forall i | 0 <= i < |xs|
        ensures PyEq(xs[i], ys[i])
      {
        assert cx[i] == cy[i];
      }
    }
  }

  /** Every element is an `int` (or `bool`). */
  predicate AllInts(xs: seq<Value>)
  {
    forall i :: 0 <= i < |xs| ==> IsInt(xs[i])
  }

  /** Every element is an `int`, `bool` or `float`. */
  predicate AllNumeric(xs: seq<Value>)
  {
    forall i :: 0 <= i < |xs| ==> IsNumeric(xs[i])
  }

  /** The exact sum of a list of numbers. */
  function Total(xs: seq<Value>): (t: real)
    requires AllNumeric(xs)
  {
    if |xs| == 0 then 0.0 else Total(xs[..|xs| - 1]) + Num(xs[|xs| - 1])
  }

  /** No element before index `j` is `==` to the one at `j`. */
  predicate FirstOfItsValue(xs: seq<Value>, j: nat)
    requires j < |xs|
  {
    forall m :: 0 <= m < j ==> !PyEq(xs[m], xs[j])
  }

  /** No element after index `j` is `==` to the one at `j`. */
  predicate LastOfItsValue(xs: seq<Value>, j: nat)
    requires j < |xs|
  {
    forall m :: j < m < |xs| ==> !PyEq(xs[m], xs[j])
  }
}
