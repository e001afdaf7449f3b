/**
 `InefficientClass`: a name, a list of values and a dictionary of processed values.
 The object is a record here; a method that changes the object returns the new
 record together with what the Python method returns.
 */
module ValueHolder {
  import opened Values
  import opened Errors
  import opened Dicts

  datatype Holder = Holder(name: string, values: seq<Value>, processed: Dict)

  /**
   `InefficientClass(name, values)`, where `PyNone` stands for an omitted `values`:
   a non-`str` name raises `TypeError`, then so does a `values` that is neither a
   list nor `None`; otherwise the object holds the name, the list (or an empty one)
   and an empty `processed`.
   */
  function NewHolder(name: Value, values: Value): (r: Result<Holder>)
    ensures !name.PyStr? ==> r == TypeErr("name must be a string, got " + TypeName(name))
    ensures name.PyStr? && !values.PyNone? && !values.PyList? ==>
              r == TypeErr("values must be a list or None, got " + TypeName(values))
    ensures name.PyStr? && (values.PyNone? || values.PyList?) ==>
              && r.Ok?
              && r.value.name == name.s
              && r.value.values == (if values.PyList? then values.items else [])
              && r.value.processed == map[]
  {
    if !name.PyStr? then
      TypeErr("name must be a string, got " + TypeName(name))
    else if !values.PyNone? && !values.PyList? then
      TypeErr("values must be a list or None, got " + TypeName(values))
    else
      // `values or []`: `None` and an empty list both leave an empty list
      var vs := if values.PyNone? || values.items == [] then [] else values.items;
      Ok(Holder(name.s, vs, map[]))
  }

  /** `v * 2`. */
  function TimesTwo(v: Value): (r: Result<Value>)
  {
    match v
    case PyNone => TypeErr("unsupported operand type(s) for *: 'NoneType' and 'int'")
    case PyBool(b) => Ok(PyInt(if b then 2 else 0))
    case PyInt(i) => Ok(PyInt(2 * i))
    case PyFloat(x) => Ok(PyFloat(2.0 * x))
    case PyStr(s) => Ok(PyStr(s + s))
    case PyList(xs) => Ok(PyList(xs + xs))
    case PyTuple(xs) => Ok(PyTuple(xs + xs))
  }

  /** `processed[v] = v * 2` raises: the product does, or `v` cannot be a key. */
  predicate Fails(v: Value)
  {
    TimesTwo(v).Raise? || !Hashable(v)
  }

  /** The exception `processed[v] = v * 2` raises; the product is computed before the key is hashed. */
  function StepError(v: Value): (e: Exception)
    requires Fails(v)
  {
    if TimesTwo(v).Raise? then TimesTwo(v).exc else Exception(TypeError, "unhashable type: 'list'")
  }

  function Doubled(v: Value): (w: Value)
    requires !Fails(v)
  {
    TimesTwo(v).value
  }

  /** The index of the first element whose step raises, or `|vs|` when none does. */
  function FirstFailure(vs: seq<Value>): (f: nat)
    ensures f <= |vs|
    ensures forall j :: 0 <= j < f ==> !Fails(vs[j])
    ensures f < |vs| ==> Fails(vs[f])
  {
    if |vs| == 0 then 0
    else if Fails(vs[0]) then 0
    else 1 + FirstFailure(vs[1..])
  }

  /** Every entry of `after` was in `before` or belongs to an element of `vs`. */
  ghost predicate NoOtherKeys(before: Dict, after: Dict, vs: seq<Value>)
  {
    forall k :: k in after ==> k in before || exists j :: 0 <= j < |vs| && Canon(vs[j]) == k
  }

  /** Entries already in `before` stay, under the same key object. */
  ghost predicate KeepsKeyObjects(before: Dict, after: Dict)
  {
    forall k :: k in before ==> k in after && after[k].key == before[k].key
  }

  /** Entries no element of `vs` touches are left as they were. */
  ghost predicate Untouched(before: Dict, after: Dict, vs: seq<Value>)
    requires KeepsKeyObjects(before, after)
  {
    forall k :: k in before && (forall j :: 0 <= j < |vs| ==> Canon(vs[j]) != k) ==> after[k] == before[k]
  }

  /** Every element has an entry, holding the double of the last element equal to it. */
  ghost predicate LastWriteWins(after: Dict, vs: seq<Value>)
    requires forall j :: 0 <= j < |vs| ==> !Fails(vs[j])
  {
    && (forall j :: 0 <= j < |vs| ==> Canon(vs[j]) in after)
    && (forall j :: 0 <= j < |vs| && LastOfItsValue(vs, j) ==> after[Canon(vs[j])].val == Doubled(vs[j]))
  }

  /** A new entry is filed under the first element equal to it. */
  ghost predicate FirstKeyFiled(before: Dict, after: Dict, vs: seq<Value>)
  {
    forall j :: 0 <= j < |vs| && Canon(vs[j]) !in before && FirstOfItsValue(vs, j) ==>
      Canon(vs[j]) in after && after[Canon(vs[j])].key == vs[j]
  }

  /**
   `after` is `before` after `processed[v] = v * 2` for every `v` of `vs` in order:
   every element has an entry holding the double of the last element equal to it;
   a new entry is filed under the first such element; entries already there keep
   their key object; and entries no element touches are left as they were.
   */
  ghost predicate Updated(before: Dict, after: Dict, vs: seq<Value>)
    requires forall j :: 0 <= j < |vs| ==> !Fails(vs[j])
  {
    && NoOtherKeys(before, after, vs)
    && KeepsKeyObjects(before, after)
    && Untouched(before, after, vs)
    && LastWriteWins(after, vs)
    && FirstKeyFiled(before, after, vs)
  }

  lemma UntouchedStep(before: Dict, d: Dict, vs: seq<Value>, v: Value, w: Value)
    requires KeepsKeyObjects(before, d) && Untouched(before, d, vs)
    ensures KeepsKeyObjects(before, Store(d, v, w)) && Untouched(before, Store(d, v, w), vs + [v])
  {
    var ws := vs + [v];
    forall k | k in before && (forall j :: 0 <= j < |ws| ==> Canon(ws[j]) != k)
      ensures Store(d, v, w)[k] == before[k]
    {
      assert Canon(ws[|vs|]) != k;
      forall j | 0 <= j < |vs|
        ensures Canon(vs[j]) != k
      {
        assert Canon(ws[j]) != k;
      }
    }
  }

  lemma LastWriteWinsStep(d: Dict, vs: seq<Value>, v: Value)
    requires forall j :: 0 <= j < |vs| ==> !Fails(vs[j])
    requires !Fails(v) && LastWriteWins(d, vs)
    ensures forall j :: 0 <= j < |vs + [v]| ==> !Fails((vs + [v])[j])
    ensures LastWriteWins(Store(d, v, Doubled(v)), vs + [v])
  {
    var ws := vs + [v];
    var d' := Store(d, v, Doubled(v));
    forall j | 0 <= j < |ws| && LastOfItsValue(ws, j)
      ensures d'[Canon(ws[j])].val == Doubled(ws[j])
    {
      if j < |vs| {
        assert !PyEq(ws[|vs|], ws[j]);
        assert LastOfItsValue(vs, j) by {
          forall m | j < m < |vs|
            ensures !PyEq(vs[m], vs[j])
          {
            assert !PyEq(ws[m], ws[j]);
          }
        }
      }
    }
  }

  /**
   The loop of `process_values` from index `i` on, starting from the dictionary `d`:
   the dictionary it leaves, and either that dictionary (the method returns it) or
   the exception that stopped it.
   */
  function ProcessLoop(vs: seq<Value>, i: nat, d: Dict): (out: (Dict, Result<Dict>))
    requires i <= |vs|
    decreases |vs| - i
  {
    if i == |vs| then (d, Ok(d))
    else if Fails(vs[i]) then (d, Raise(StepError(vs[i])))
    else ProcessLoop(vs, i + 1, Store(d, vs[i], Doubled(vs[i])))
  }

  /** What the loop returns: the dictionary when no step raises, else the first step's exception. */
  lemma {:induction false} ProcessLoopResult(vs: seq<Value>, i: nat, d: Dict)
    requires i <= FirstFailure(vs)
    ensures FirstFailure(vs) == |vs| ==> ProcessLoop(vs, i, d).1 == Ok(ProcessLoop(vs, i, d).0)
    ensures FirstFailure(vs) < |vs| ==> ProcessLoop(vs, i, d).1 == Raise(StepError(vs[FirstFailure(vs)]))
    decreases |vs| - i
  {
    if i == |vs| || Fails(vs[i]) {
      assert i == FirstFailure(vs);
    } else {
      var d' := Store(d, vs[i], Doubled(vs[i]));
      assert ProcessLoop(vs, i, d) == ProcessLoop(vs, i + 1, d');
      ProcessLoopResult(vs, i + 1, d');
    }
  }

  /** `d` after `processed[v] = v * 2` for every `v` of `vs` in order, none of which raises. */
  function Assign(d: Dict, vs: seq<Value>): (r: Dict)
    requires forall j :: 0 <= j < |vs| ==> !Fails(vs[j])
  {
    if |vs| == 0 then d else
      var v := vs[|vs| - 1];
      Store(Assign(d, vs[..|vs| - 1]), v, Doubled(v))
  }

  /** The assignments keep every entry under the canonical form of its key object. */
  lemma {:induction false} AssignWellFormed(d: Dict, vs: seq<Value>)
    requires forall j :: 0 <= j < |vs| ==> !Fails(vs[j])
    ensures WellFormed(d) ==> WellFormed(Assign(d, vs))
    decreases |vs|
  {
    if |vs| > 0 && WellFormed(d) {
      var v := vs[|vs| - 1];
      AssignWellFormed(d, vs[..|vs| - 1]);
      StoreWellFormed(Assign(d, vs[..|vs| - 1]), v, Doubled(v));
    }
  }

  /** The loop makes the assignments of every step before the first that raises. */
  lemma {:induction false} ProcessLoopAssigns(vs: seq<Value>, i: nat, before: Dict, d: Dict)
    requires i <= FirstFailure(vs)
    requires d == Assign(before, vs[..i])
    ensures ProcessLoop(vs, i, d).0 == Assign(before, vs[..FirstFailure(vs)])
    decreases |vs| - i
  {
    if i == |vs| || Fails(vs[i]) {
      assert i == FirstFailure(vs);
    } else {
      assert vs[..i + 1][..i] == vs[..i];
      ProcessLoopAssigns(vs, i + 1, before, Store(d, vs[i], Doubled(vs[i])));
    }
  }

  /** The canonical forms of the elements of `vs`. */
  function KeysOf(vs: seq<Value>): (ks: set<Key>)
  {
    if |vs| == 0 then {} else KeysOf(vs[..|vs| - 1]) + {Canon(vs[|vs| - 1])}
  }

  lemma {:induction false} KeysOfElements(vs: seq<Value>, k: Key)
    ensures k in KeysOf(vs) <==> exists j :: 0 <= j < |vs| && Canon(vs[j]) == k
    decreases |vs|
  {
    if |vs| > 0 {
      var init := vs[..|vs| - 1];
      KeysOfElements(init, k);
      if k in KeysOf(init) {
        var j :| 0 <= j < |init| && Canon(init[j]) == k;
        assert Canon(vs[j]) == k;
      }
      if exists j :: 0 <= j < |vs| && Canon(vs[j]) == k {
        var j :| 0 <= j < |vs| && Canon(vs[j]) == k;
        if j < |init| {
          assert Canon(init[j]) == k;
        }
      }
    }
  }

  /** The assignments add exactly the keys of the elements. */
  lemma {:induction false} AssignKeys(before: Dict, vs: seq<Value>)
    requires forall j :: 0 <= j < |vs| ==> !Fails(vs[j])
    ensures Assign(before, vs).Keys == before.Keys + KeysOf(vs)
    decreases |vs|
  {
    if |vs| > 0 {
      AssignKeys(before, vs[..|vs| - 1]);
    }
  }

  lemma AssignNoOtherKeys(before: Dict, vs: seq<Value>)
    requires forall j :: 0 <= j < |vs| ==> !Fails(vs[j])
    ensures NoOtherKeys(before, Assign(before, vs), vs)
  {
    AssignKeys(before, vs);
    forall k | k in Assign(before, vs) && k !in before
      ensures exists j :: 0 <= j < |vs| && Canon(vs[j]) == k
    {
      KeysOfElements(vs, k);
    }
  }

  lemma {:induction false} AssignUntouched(before: Dict, vs: seq<Value>)
    requires forall j :: 0 <= j < |vs| ==> !Fails(vs[j])
    ensures KeepsKeyObjects(before, Assign(before, vs)) && Untouched(before, Assign(before, vs), vs)
    decreases |vs|
  {
    if |vs| > 0 {
      var init, v := vs[..|vs| - 1], vs[|vs| - 1];
      AssignUntouched(before, init);
      assert init + [v] == vs;
      UntouchedStep(before, Assign(before, init), init, v, Doubled(v));
    }
  }

  lemma {:induction false} AssignLastWriteWins(before: Dict, vs: seq<Value>)
    requires forall j :: 0 <= j < |vs| ==> !Fails(vs[j])
    ensures LastWriteWins(Assign(before, vs), vs)
    decreases |vs|
  {
    if |vs| > 0 {
      var init, v := vs[..|vs| - 1], vs[|vs| - 1];
      AssignLastWriteWins(before, init);
      assert init + [v] == vs;
      LastWriteWinsStep(Assign(before, init), init, v);
    }
  }

  lemma FirstKeyFiledStep(before: Dict, d: Dict, vs: seq<Value>, v: Value, w: Value)
    requires d.Keys == before.Keys + KeysOf(vs)
    requires FirstKeyFiled(before, d, vs)
    ensures FirstKeyFiled(before, Store(d, v, w), vs + [v])
  {
    var ws := vs + [v];
    var d' := Store(d, v, w);
    forall j | 0 <= j < |ws| && Canon(ws[j]) !in before && FirstOfItsValue(ws, j)
      ensures Canon(ws[j]) in d' && d'[Canon(ws[j])].key == ws[j]
    {
      if j < |vs| {
        assert ws[j] == vs[j];
        assert FirstOfItsValue(vs, j) by {
          forall m | 0 <= m < j
            ensures !PyEq(vs[m], vs[j])
          {
            assert !PyEq(ws[m], ws[j]);
          }
        }
      } else {
        assert j == |vs| && ws[j] == v;
        forall m | 0 <= m < |vs|
          ensures Canon(vs[m]) != Canon(v)
        {
          assert ws[m] == vs[m] && !PyEq(ws[m], ws[j]);
        }
        KeysOfElements(vs, Canon(v));
        assert Canon(v) !in d;
      }
    }
  }

  lemma {:induction false} AssignFirstKeyFiled(before: Dict, vs: seq<Value>)
    requires forall j :: 0 <= j < |vs| ==> !Fails(vs[j])
    ensures FirstKeyFiled(before, Assign(before, vs), vs)
    decreases |vs|
  {
    if |vs| > 0 {
      var init, v := vs[..|vs| - 1], vs[|vs| - 1];
      AssignFirstKeyFiled(before, init);
      AssignKeys(before, init);
      assert init + [v] == vs;
      FirstKeyFiledStep(before, Assign(before, init), init, v, Doubled(v));
    }
  }

  /** Making the assignments of `vs` in order updates the dictionary as `Updated` describes. */
  lemma AssignUpdates(before: Dict, vs: seq<Value>)
    requires forall j :: 0 <= j < |vs| ==> !Fails(vs[j])
    ensures Updated(before, Assign(before, vs), vs)
  {
    AssignNoOtherKeys(before, vs);
    AssignUntouched(before, vs);
    AssignLastWriteWins(before, vs);
    AssignFirstKeyFiled(before, vs);
  }

  /**
   `process_values()`: `processed[v] = v * 2` for each value in order, up to the first
   value whose step raises. Only `processed` changes. The method returns `processed`,
   or the exception of the step that raised.
   */
  function ProcessValues(h: Holder): (out: (Holder, Result<Dict>))
    ensures out.0.name == h.name && out.0.values == h.values
    ensures out.0.processed == Assign(h.processed, h.values[..FirstFailure(h.values)])
    ensures WellFormed(h.processed) ==> WellFormed(out.0.processed)
    ensures FirstFailure(h.values) == |h.values| ==> out.1 == Ok(out.0.processed)
    ensures FirstFailure(h.values) < |h.values| ==> out.1 == Raise(StepError(h.values[FirstFailure(h.values)]))
  {
    assert h.values[..0] == [];
    AssignWellFormed(h.processed, h.values[..FirstFailure(h.values)]);
    ProcessLoopAssigns(h.values, 0, h.processed, h.processed);
    ProcessLoopResult(h.values, 0, h.processed);
    var (d, res) := ProcessLoop(h.values, 0, h.processed);
    (h.(processed := d), res)
  }

  /**
   What `process_values()` leaves in `processed`: every value before the first failing
   one has an entry holding the double of the last value equal to it; a new entry is
   filed under the first such value; entries already there keep their key object; and
   entries no value touches are left as they were (nothing is cleared).
   */
  lemma ProcessValuesUpdates(h: Holder)
    ensures Updated(h.processed, ProcessValues(h).0.processed, h.values[..FirstFailure(h.values)])
  {
    AssignUpdates(h.processed, h.values[..FirstFailure(h.values)]);
  }

  /** Some element is a `float`. */
  predicate HasFloat(vs: seq<Value>)
  {
    exists j :: 0 <= j < |vs| && vs[j].PyFloat?
  }

  /** The exact sum of a list of `int`s and `bool`s. */
  function IntTotal(vs: seq<Value>): (t: int)
    requires AllInts(vs)
  {
    if |vs| == 0 then 0 else IntTotal(vs[..|vs| - 1]) + AsInt(vs[|vs| - 1])
  }

  /**
   `sum(vs)`: the exact total, a `float` when some element is one and otherwise an
   `int`, never a `bool`, since `sum` starts from the `int` 0.
   */
  function PySum(vs: seq<Value>): (s: Value)
    requires AllNumeric(vs)
    ensures IsNumeric(s) && Num(s) == Total(vs)
    ensures s.PyFloat? <==> HasFloat(vs)
    ensures !HasFloat(vs) ==> s.PyInt?
  {
    if HasFloat(vs) then PyFloat(Total(vs))
    else
      IntTotalIsTotal(vs);
      PyInt(IntTotal(vs))
  }

  lemma {:induction false} IntTotalIsTotal(vs: seq<Value>)
    requires AllNumeric(vs) && !HasFloat(vs)
    ensures AllInts(vs) && IntTotal(vs) as real == Total(vs)
    decreases |vs|
  {
    if |vs| > 0 {
      var init := vs[..|vs| - 1];
      assert forall j :: 0 <= j < |init| ==> init[j] == vs[j];
      IntTotalIsTotal(init);
    }
  }

  /** `vs[m]` is what Python's `max(vs)` returns: no element exceeds it, and every earlier element is smaller. */
  predicate IsFirstMax(vs: seq<Value>, m: nat)
    requires AllNumeric(vs) && m < |vs|
  {
    && (forall j :: 0 <= j < |vs| ==> Num(vs[j]) <= Num(vs[m]))
    && (forall j :: 0 <= j < m ==> Num(vs[j]) < Num(vs[m]))
  }

  /** `vs[m]` is what Python's `min(vs)` returns: no element undercuts it, and every earlier element is greater. */
  predicate IsFirstMin(vs: seq<Value>, m: nat)
    requires AllNumeric(vs) && m < |vs|
  {
    && (forall j :: 0 <= j < |vs| ==> Num(vs[m]) <= Num(vs[j]))
    && (forall j :: 0 <= j < m ==> Num(vs[m]) < Num(vs[j]))
  }

  /** Python's `max(vs)`: the first element that no other element exceeds. */
  function MaxIndex(vs: seq<Value>): (m: nat)
    requires AllNumeric(vs) && |vs| > 0
    ensures m < |vs|
    ensures forall j :: 0 <= j < |vs| ==> Num(vs[j]) <= Num(vs[m])
    ensures forall j :: 0 <= j < m ==> Num(vs[j]) < Num(vs[m])
    decreases |vs|
  {
    if |vs| == 1 then 0
    else
      var m := MaxIndex(vs[..|vs| - 1]);
      if Num(vs[|vs| - 1]) > Num(vs[m]) then |vs| - 1 else m
  }

  /** Python's `min(vs)`: the first element that no other element undercuts. */
  function MinIndex(vs: seq<Value>): (m: nat)
    requires AllNumeric(vs) && |vs| > 0
    ensures m < |vs|
    ensures forall j :: 0 <= j < |vs| ==> Num(vs[m]) <= Num(vs[j])
    ensures forall j :: 0 <= j < m ==> Num(vs[m]) < Num(vs[j])
    decreases |vs|
  {
    if |vs| == 1 then 0
    else
      var m := MinIndex(vs[..|vs| - 1]);
      if Num(vs[|vs| - 1]) < Num(vs[m]) then |vs| - 1 else m
  }

  /** The index of the first element that is not a number, or `|vs|` when all are. */
  function FirstNonNumeric(vs: seq<Value>): (f: nat)
    ensures f <= |vs|
    ensures forall j :: 0 <= j < f ==> IsNumeric(vs[j])
    ensures f < |vs| ==> !IsNumeric(vs[f])
  {
    if |vs| == 0 then 0
    else if !IsNumeric(vs[0]) then 0
    else 1 + FirstNonNumeric(vs[1..])
  }

  /**
   The message of the `TypeError` `sum` raises at the first non-number: the running
   total is a `float` once a `float` has been added, an `int` before.
   */
  function SumErrorMessage(vs: seq<Value>): (msg: string)
    requires FirstNonNumeric(vs) < |vs|
  {
    var f := FirstNonNumeric(vs);
    var running := if HasFloat(vs[..f]) then "float" else "int";
    "unsupported operand type(s) for +: '" + running + "' and '" + TypeName(vs[f]) + "'"
  }

  /** The entry for a string key. */
  function Stat(d: Dict, name: string): (v: Value)
    requires KStr(name) in d
  {
    d[KStr(name)].val
  }

  function StatEntry(name: string, v: Value): (e: Entry)
  {
    Entry(PyStr(name), v)
  }

  lemma StatNamesDistinct()
    ensures KStr("count") != KStr("sum") && KStr("count") != KStr("average") && KStr("count") != KStr("max")
    ensures KStr("count") != KStr("min") && KStr("sum") != KStr("average") && KStr("sum") != KStr("max")
    ensures KStr("sum") != KStr("min") && KStr("average") != KStr("max") && KStr("average") != KStr("min")
    ensures KStr("max") != KStr("min")
  {
    assert |"count"| == 5 && |"sum"| == 3 && |"average"| == 7 && |"max"| == 3 && |"min"| == 3;
    assert "sum"[0] != "max"[0] && "sum"[0] != "min"[0] && "max"[1] != "min"[1];
  }

  /** The dictionary `get_stats` returns for no values. */
  function EmptyStats(): (d: Dict)
    ensures WellFormed(d)
    ensures d.Keys == {KStr("count"), KStr("average")}
    ensures Stat(d, "count") == PyInt(0) && Stat(d, "average") == PyInt(0)
  {
    StatNamesDistinct();
    map[KStr("count") := StatEntry("count", PyInt(0)), KStr("average") := StatEntry("average", PyInt(0))]
  }

  /** The dictionary `get_stats` builds for a non-empty list of numbers. */
  function StatsTable(vs: seq<Value>): (d: Dict)
    requires AllNumeric(vs) && |vs| > 0
    ensures d.Keys == {KStr("count"), KStr("sum"), KStr("average"), KStr("max"), KStr("min")}
    ensures Stat(d, "count") == PyInt(|vs|)
    ensures Stat(d, "sum") == PySum(vs)
    ensures Stat(d, "average") == PyFloat(Total(vs) / (|vs| as real))
    ensures Stat(d, "max") == vs[MaxIndex(vs)]
    ensures Stat(d, "min") == vs[MinIndex(vs)]
  {
    StatNamesDistinct();
    map[
      KStr("count") := StatEntry("count", PyInt(|vs|)),
      KStr("sum") := StatEntry("sum", PySum(vs)),
      KStr("average") := StatEntry("average", PyFloat(Total(vs) / (|vs| as real))),
      KStr("max") := StatEntry("max", vs[MaxIndex(vs)]),
      KStr("min") := StatEntry("min", vs[MinIndex(vs)])]
  }

  /** Each statistic is filed under its name. */
  lemma StatsTableWellFormed(vs: seq<Value>)
    requires AllNumeric(vs) && |vs| > 0
    ensures WellFormed(StatsTable(vs))
  {
    var d := StatsTable(vs);
    forall c | c in d
      ensures Canon(d[c].key) == c
    {
      assert d[c].key == PyStr(c.s);
    }
  }

  /**
   `get_stats()`: for no values exactly the two entries `count: 0` and `average: 0`;
   a value that is not a number makes `sum` raise `TypeError`; otherwise `count` is
   the number of values, `sum` their total, `average` the total over the count, and
   `max` and `min` the first greatest and the first least value.
   */
  function GetStats(h: Holder): (r: Result<Dict>)
    ensures r.Ok? ==> WellFormed(r.value)
    ensures |h.values| == 0 ==>
              && r.Ok?
              && r.value.Keys == {KStr("count"), KStr("average")}
              && Stat(r.value, "count") == PyInt(0) && Stat(r.value, "average") == PyInt(0)
    ensures |h.values| > 0 && !AllNumeric(h.values) ==> r == TypeErr(SumErrorMessage(h.values))
    ensures |h.values| > 0 && AllNumeric(h.values) ==>
              && r.Ok?
              && r.value.Keys == {KStr("count"), KStr("sum"), KStr("average"), KStr("max"), KStr("min")}
              && Stat(r.value, "count") == PyInt(|h.values|)
              && IsNumeric(Stat(r.value, "sum")) && Num(Stat(r.value, "sum")) == Total(h.values)
              && (Stat(r.value, "sum").PyFloat? <==> HasFloat(h.values))
              && (!HasFloat(h.values) ==> Stat(r.value, "sum").PyInt?)
              && Stat(r.value, "average") == PyFloat(Total(h.values) / (|h.values| as real))
              && (exists i :: 0 <= i < |h.values| && IsFirstMax(h.values, i) && Stat(r.value, "max") == h.values[i])
              && (exists i :: 0 <= i < |h.values| && IsFirstMin(h.values, i) && Stat(r.value, "min") == h.values[i])
  {
    var vs := h.values;
    if |vs| == 0 then
      Ok(EmptyStats())
    else if FirstNonNumeric(vs) < |vs| then
      TypeErr(SumErrorMessage(vs))
    else
      StatsTableWellFormed(vs);
      Ok(StatsTable(vs))
  }

  /** A total of numbers none below `a` is at least `|vs| * a`. */
  lemma {:induction false} TotalAtLeast(vs: seq<Value>, a: real)
    requires AllNumeric(vs)
    requires forall j :: 0 <= j < |vs| ==> a <= Num(vs[j])
    ensures (|vs| as real) * a <= Total(vs)
    decreases |vs|
  {
    if |vs| > 0 {
      var init := vs[..|vs| - 1];
      assert forall j :: 0 <= j < |init| ==> init[j] == vs[j];
      TotalAtLeast(init, a);
      assert |vs| as real == |init| as real + 1.0;
      OneMore(|init| as real, a);
    }
  }

  /** A total of numbers none above `b` is at most `|vs| * b`. */
  lemma {:induction false} TotalAtMost(vs: seq<Value>, b: real)
    requires AllNumeric(vs)
    requires forall j :: 0 <= j < |vs| ==> Num(vs[j]) <= b
    ensures Total(vs) <= (|vs| as real) * b
    decreases |vs|
  {
    if |vs| > 0 {
      var init := vs[..|vs| - 1];
      assert forall j :: 0 <= j < |init| ==> init[j] == vs[j];
      TotalAtMost(init, b);
      assert |vs| as real == |init| as real + 1.0;
      OneMore(|init| as real, b);
    }
  }

  lemma OneMore(n: real, c: real)
    ensures (n + 1.0) * c == n * c + c
  {
  }

  lemma DivideBounds(n: real, lo: real, t: real, hi: real)
    requires n > 0.0 && n * lo <= t <= n * hi
    ensures lo <= t / n <= hi
  {
  }

  /** The average of numbers that all lie between `a` and `b` lies between them too. */
  lemma AverageWithin(vs: seq<Value>, a: real, b: real)
    requires |vs| > 0 && AllNumeric(vs)
    requires forall j :: 0 <= j < |vs| ==> a <= Num(vs[j]) <= b
    ensures a <= Total(vs) / (|vs| as real) <= b
  {
    TotalAtLeast(vs, a);
    TotalAtMost(vs, b);
    DivideBounds(|vs| as real, a, Total(vs), b);
  }

  lemma AverageBounds(vs: seq<Value>)
    requires |vs| > 0 && AllNumeric(vs)
    ensures Num(vs[MinIndex(vs)]) <= Total(vs) / (|vs| as real) <= Num(vs[MaxIndex(vs)])
  {
    AverageWithin(vs, Num(vs[MinIndex(vs)]), Num(vs[MaxIndex(vs)]));
  }

  /** The average lies between the minimum and the maximum. */
  lemma AverageBetweenMinAndMax(h: Holder)
    requires |h.values| > 0 && AllNumeric(h.values)
    ensures GetStats(h).Ok?
    ensures Num(Stat(GetStats(h).value, "min")) <= Total(h.values) / (|h.values| as real) <= Num(Stat(GetStats(h).value, "max"))
  {
    assert GetStats(h) == Ok(StatsTable(h.values));
    AverageBounds(h.values);
  }

  /** The constructor calls the tests make. */
  lemma ConstructorExamples()
    ensures NewHolder(PyStr("test"), PyNone) == Ok(Holder("test", [], map[]))
    ensures NewHolder(PyStr("test"), PyList([PyInt(1), PyInt(2), PyInt(3)])) == Ok(Holder("test", [PyInt(1), PyInt(2), PyInt(3)], map[]))
    ensures NewHolder(PyInt(123), PyNone) == TypeErr("name must be a string, got int")
    ensures NewHolder(PyStr("test"), PyStr("not a list")) == TypeErr("values must be a list or None, got str")
  {
  }

  /** Processing the values of a fresh object: exactly one entry per distinct value, holding its double. */
  lemma ProcessFresh(h: Holder)
    requires h.processed == map[] && FirstFailure(h.values) == |h.values|
    ensures ProcessValues(h).1 == Ok(ProcessValues(h).0.processed)
    ensures ProcessValues(h).0.processed.Keys == set j | 0 <= j < |h.values| :: Canon(h.values[j])
    ensures forall j :: 0 <= j < |h.values| && LastOfItsValue(h.values, j) ==>
              Get(ProcessValues(h).0.processed, h.values[j]) == Doubled(h.values[j])
  {
    assert h.values[..FirstFailure(h.values)] == h.values;
    AssignFresh(h.values);
  }

  lemma AssignFresh(vs: seq<Value>)
    requires forall j :: 0 <= j < |vs| ==> !Fails(vs[j])
    ensures Assign(map[], vs).Keys == set j | 0 <= j < |vs| :: Canon(vs[j])
    ensures forall j :: 0 <= j < |vs| && LastOfItsValue(vs, j) ==> Get(Assign(map[], vs), vs[j]) == Doubled(vs[j])
  {
    AssignKeys(map[], vs);
    forall k
      ensures k in KeysOf(vs) <==> k in set j | 0 <= j < |vs| :: Canon(vs[j])
    {
      KeysOfElements(vs, k);
    }
    AssignLastWriteWins(map[], vs);
  }

  /** One more assignment at the end. */
  lemma AssignSnoc(d: Dict, vs: seq<Value>, v: Value)
    requires forall j :: 0 <= j < |vs| ==> !Fails(vs[j])
    requires !Fails(v)
    ensures Assign(d, vs + [v]) == Store(Assign(d, vs), v, Doubled(v))
  {
    assert (vs + [v])[..|vs|] == vs;
  }

  /** Doubling and hashing a number never raises. */
  lemma {:induction false} NumbersNeverFail(vs: seq<Value>)
    requires AllNumeric(vs)
    ensures FirstFailure(vs) == |vs|
    decreases |vs|
  {
    if |vs| > 0 {
      NumbersNeverFail(vs[1..]);
    }
  }

  /** Assigning the doubles of two integers. */
  lemma AssignTwoInts(d: Dict, a: int, b: int)
    ensures forall j :: 0 <= j < 2 ==> !Fails([PyInt(a), PyInt(b)][j])
    ensures Assign(d, [PyInt(a), PyInt(b)]) == Store(Store(d, PyInt(a), PyInt(2 * a)), PyInt(b), PyInt(2 * b))
  {
    AssignSnoc(d, [], PyInt(a));
    assert [] + [PyInt(a)] == [PyInt(a)];
    AssignSnoc(d, [PyInt(a)], PyInt(b));
    assert [PyInt(a)] + [PyInt(b)] == [PyInt(a), PyInt(b)];
  }

  /** Processing two integers on top of `d`. */
  lemma ProcessTwoInts(h: Holder, a: int, b: int)
    requires h.values == [PyInt(a), PyInt(b)]
    ensures ProcessValues(h).0.processed == Store(Store(h.processed, PyInt(a), PyInt(2 * a)), PyInt(b), PyInt(2 * b))
  {
    NumbersNeverFail(h.values);
    assert h.values[..FirstFailure(h.values)] == h.values;
    AssignTwoInts(h.processed, a, b);
  }

  lemma DoublesExample(h: Holder)
    requires h == Holder("test", [PyInt(1), PyInt(2), PyInt(3)], map[])
    ensures ProcessValues(h).1.Ok?
    ensures var d := ProcessValues(h).0.processed;
            && d.Keys == {KNum(1.0), KNum(2.0), KNum(3.0)}
            && Get(d, PyInt(1)) == PyInt(2) && Get(d, PyInt(2)) == PyInt(4) && Get(d, PyInt(3)) == PyInt(6)
  {
    NumbersNeverFail(h.values);
    assert h.values[..FirstFailure(h.values)] == h.values;
    OneTwoThree(h.values);
  }

  lemma OneTwoThree(vs: seq<Value>)
    requires vs == [PyInt(1), PyInt(2), PyInt(3)]
    ensures forall j :: 0 <= j < |vs| ==> !Fails(vs[j])
    ensures var d := Assign(map[], vs);
            && d.Keys == {KNum(1.0), KNum(2.0), KNum(3.0)}
            && Get(d, PyInt(1)) == PyInt(2) && Get(d, PyInt(2)) == PyInt(4) && Get(d, PyInt(3)) == PyInt(6)
  {
    assert vs == [PyInt(1), PyInt(2)] + [PyInt(3)];
    AssignTwoInts(map[], 1, 2);
    AssignSnoc(map[], [PyInt(1), PyInt(2)], PyInt(3));
    var d2 := Store(Store(map[], PyInt(1), PyInt(2)), PyInt(2), PyInt(4));
    assert d2.Keys == {KNum(1.0), KNum(2.0)};
    assert Assign(map[], vs) == Store(d2, PyInt(3), PyInt(6));
  }

  /** An empty list gives `{}`. */
  lemma EmptyExample(h: Holder)
    requires h == Holder("test", [], map[])
    ensures ProcessValues(h).1 == Ok(map[])
  {
  }

  /** The first round of the reprocessing test: `[1, 2]` gives `{1: 2, 2: 4}`. */
  lemma FirstRound(h: Holder)
    requires h == Holder("test", [PyInt(1), PyInt(2)], map[])
    ensures var d := ProcessValues(h).0.processed;
            && d.Keys == {KNum(1.0), KNum(2.0)}
            && Get(d, PyInt(1)) == PyInt(2) && Get(d, PyInt(2)) == PyInt(4)
  {
    ProcessTwoInts(h, 1, 2);
  }

  /** The second round: processing `[3, 4]` on top of `{1: 2, 2: 4}` adds two entries and keeps the old ones. */
  lemma SecondRound(h: Holder)
    requires h.values == [PyInt(3), PyInt(4)]
    requires h.processed.Keys == {KNum(1.0), KNum(2.0)}
    requires Get(h.processed, PyInt(1)) == PyInt(2) && Get(h.processed, PyInt(2)) == PyInt(4)
    ensures var d := ProcessValues(h).0.processed;
            && d.Keys == {KNum(1.0), KNum(2.0), KNum(3.0), KNum(4.0)}
            && Get(d, PyInt(1)) == PyInt(2) && Get(d, PyInt(2)) == PyInt(4)
            && Get(d, PyInt(3)) == PyInt(6) && Get(d, PyInt(4)) == PyInt(8)
  {
    ProcessTwoInts(h, 3, 4);
  }

  /**
   Processing `[1, 2]`, replacing the values by `[3, 4]` and processing again keeps the
   entries of the first round: the result is `{1: 2, 2: 4, 3: 6, 4: 8}`, not `{3: 6, 4: 8}`.
   */
  lemma ReprocessingKeepsOldEntries(h: Holder)
    requires h == Holder("test", [PyInt(1), PyInt(2)], map[])
    ensures var d := ProcessValues(ProcessValues(h).0.(values := [PyInt(3), PyInt(4)])).0.processed;
            && d.Keys == {KNum(1.0), KNum(2.0), KNum(3.0), KNum(4.0)}
            && Get(d, PyInt(1)) == PyInt(2) && Get(d, PyInt(2)) == PyInt(4)
            && Get(d, PyInt(3)) == PyInt(6) && Get(d, PyInt(4)) == PyInt(8)
            && d.Keys != {KNum(3.0), KNum(4.0)}
  {
    FirstRound(h);
    var h2 := ProcessValues(h).0.(values := [PyInt(3), PyInt(4)]);
    SecondRound(h2);
    assert KNum(1.0) in ProcessValues(h2).0.processed;
  }

  /** `get_stats()` on no values, as the test pins it: `{"count": 0, "average": 0}`. */
  lemma EmptyStatsExample(h: Holder)
    requires h == Holder("test", [], map[])
    ensures GetStats(h).Ok? && GetStats(h).value.Keys == {KStr("count"), KStr("average")}
    ensures Stat(GetStats(h).value, "count") == PyInt(0) && Stat(GetStats(h).value, "average") == PyInt(0)
  {
  }

  lemma TotalOneToFive(vs: seq<Value>)
    requires vs == [PyInt(1), PyInt(2), PyInt(3), PyInt(4), PyInt(5)]
    ensures Total(vs) == 15.0
  {
    assert vs[..1][..0] == [] && vs[..2][..1] == vs[..1] && vs[..3][..2] == vs[..2] && vs[..4][..3] == vs[..3];
    assert Total(vs[..1]) == 1.0;
    assert Total(vs[..2]) == 3.0;
    assert Total(vs[..3]) == 6.0;
    assert Total(vs[..4]) == 10.0;
  }

  /** `get_stats()` on `[1, 2, 3, 4, 5]`: count 5, sum 15, average 3.0, max 5, min 1. */
  lemma StatsExample(h: Holder)
    requires h == Holder("test", [PyInt(1), PyInt(2), PyInt(3), PyInt(4), PyInt(5)], map[])
    ensures GetStats(h).Ok?
    ensures var d := GetStats(h).value;
            && Stat(d, "count") == PyInt(5) && Stat(d, "sum") == PyInt(15) && Stat(d, "average") == PyFloat(3.0)
            && Stat(d, "max") == PyInt(5) && Stat(d, "min") == PyInt(1)
  {
    StatsOfNumbers(h);
    OneToFive(h.values);
  }

  /** For a non-empty list of numbers `get_stats()` builds `StatsTable`. */
  lemma StatsOfNumbers(h: Holder)
    requires |h.values| > 0 && AllNumeric(h.values)
    ensures GetStats(h) == Ok(StatsTable(h.values))
  {
    assert FirstNonNumeric(h.values) == |h.values|;
  }

  lemma OneToFive(vs: seq<Value>)
    requires vs == [PyInt(1), PyInt(2), PyInt(3), PyInt(4), PyInt(5)]
    ensures PySum(vs) == PyInt(15) && Total(vs) / (|vs| as real) == 3.0
    ensures vs[MaxIndex(vs)] == PyInt(5) && vs[MinIndex(vs)] == PyInt(1)
  {
    TotalOneToFive(vs);
    assert !HasFloat(vs);
    var mx, mn := MaxIndex(vs), MinIndex(vs);
    assert Num(vs[mx]) >= Num(vs[4]) && Num(vs[mn]) <= Num(vs[0]);
    assert forall j :: 0 <= j < |vs| ==> Num(vs[j]) == (j + 1) as real;
    assert mx == 4 && mn == 0;
  }


  /** `get_stats()` on `[42]`: count 1, sum 42, average 42.0, and 42 as both max and min. */
  lemma SingleStatsExample(h: Holder)
    requires h == Holder("test", [PyInt(42)], map[])
    ensures GetStats(h).Ok?
    ensures var d := GetStats(h).value;
            && Stat(d, "count") == PyInt(1) && Stat(d, "sum") == PyInt(42) && Stat(d, "average") == PyFloat(42.0)
            && Stat(d, "max") == PyInt(42) && Stat(d, "min") == PyInt(42)
  {
    var vs := h.values;
    assert vs[..0] == [];
    assert !HasFloat(vs);
    assert GetStats(h) == Ok(StatsTable(vs));
  }
}
