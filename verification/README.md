# Deliberately inefficient routines, modelled in Dafny

`inefficient_code.py` collects small routines that are written slowly on purpose,
so that an optimiser has something to improve. The modules of this project model
what the routines compute, including their argument checks and error messages. They
do not model how slowly they compute it.

- `Values` holds the dynamically typed values the routines receive. In Python,
  `isinstance(True, int)` holds, so a `bool` counts as an `int`. It also defines
  Python's `==` through a canonical form (`Canon`): `1`, `1.0` and `True` are equal,
  and a list never equals a tuple. A `float` is an exact `real`.
- `Errors` holds the outcome of a call: a value, or the exception it raises, with the
  exception's kind and message.
- `Dicts` holds dictionaries. Entries are filed under the canonical form of their key
  (`Dicts.WellFormed`), and every dictionary a routine returns is well formed.
  Assigning to a present key replaces the value and keeps the key object stored first.
- `Decimal` holds `str(n)` for integers and the decimal parser that inverts it.
- `Fibonacci` holds `slow_fibonacci`, compared with an independent linear definition.
- `Concatenation` holds `inefficient_string_concatenation`. Its result is checked
  against its inverse: splitting at `-` and parsing each part.
- `Search` holds `slow_search`.
- `EvenSquares` holds `nested_loops_processing`. Its two passes are shown equal to the
  one-pass reading `[x * x for x in data if x % 2 == 0]`.
- `RepeatedCalculations` holds `repeated_calculations`.
- `ValueHolder` holds `InefficientClass`: the constructor, `process_values` and
  `get_stats`. The object is an immutable record. A method that mutates the object
  returns the new record together with the method's return value.

## Where the code and its documentation differ

The model follows the code in each case.

- `bool` arguments are accepted wherever an `int` is. `slow_fibonacci` returns its
  argument itself when it is at most 1. So `slow_fibonacci(True)` is `True` and
  `slow_fibonacci(False)` is `False` (`Fibonacci.BoolIsAccepted`).
- `process_values` never clears `processed`. Entries from an earlier call survive a
  change of `values`. The reprocessing test at test_inefficient_code.py:303-313
  expects `{3: 6, 4: 8}` after processing `[1, 2]` and then `[3, 4]`. The code leaves
  `{1: 2, 2: 4, 3: 6, 4: 8}` (`ValueHolder.ReprocessingKeepsOldEntries`).
- The docstring of `repeated_calculations` (inefficient_code.py:122) promises a
  `ValueError` for empty data "when needed". No such error is raised: an empty list
  gives `{}`.
- `repeated_calculations` raises an undocumented `ZeroDivisionError` in one case:
  some element is above the threshold, the list is longer than the threshold, and
  the elements sum to 0. An example is `[-5, 5, 0]` with threshold 0
  (`RepeatedCalculations.ZeroAverageExample`).
- `process_values` validates nothing. A value whose doubling or hashing fails raises
  `TypeError` part-way through. The entries for the values before it have already
  been stored.

## Model

| member | source | states |
|---|---|---|
| Fibonacci.SlowFibonacci | inefficient_code.py:22-28 | a non-int raises TypeError "Expected integer, got <type>"; a negative int raises ValueError with the number; otherwise the result is the n-th Fibonacci number of the independent linear definition, a bool exactly when the argument is one |
| Fibonacci.FirstValues | inefficient_code.py:26-28 | the first eleven results are the ints 0, 1, 1, 2, 3, 5, 8, 13, 21, 34, 55 |
| Fibonacci.ErrorExamples | inefficient_code.py:22-25 | -1 raises ValueError "... negative numbers: -1"; 3.14 and "5" raise TypeError naming float and str |
| Fibonacci.BoolIsAccepted | inefficient_code.py:22-27 | True and False pass the int check and come back as themselves |
| Fibonacci.FibMonotone | inefficient_code.py:26-28 | the results never decrease as n grows |
| Decimal.ParseNatToString | inefficient_code.py:50-51 | the decimal text of a natural number parses back to that number |
| Decimal.NatToStringParse | inefficient_code.py:50-51 | a canonical digit string is the text of the number it denotes |
| Concatenation.InefficientStringConcatenation | inefficient_code.py:45-52 | the argument checks and their messages; otherwise the result is str(i) + "-" for i in range(n), joined in order |
| Concatenation.SmallResults | inefficient_code.py:49-52 | n = 0, 1, 3 give "", "0-" and "0-1-2-" |
| Concatenation.DashCount | inefficient_code.py:49-52 | the result holds exactly n dashes |
| Concatenation.DecodeConcatenation | inefficient_code.py:49-52 | splitting the result at "-" gives n + 1 parts; part i is all digits and parses to i; the last part is empty |
| Search.SlowSearch | inefficient_code.py:69-76 | a non-list raises TypeError "items must be a list, got <type>"; for a list the answer is true exactly when some element == target |
| Search.SearchExamples | inefficient_code.py:71-76 | the tested hits: at either end, among strings, and a duplicated target |
| Search.MissExamples | inefficient_code.py:71-76 | the tested misses: 10 in [1..5] and "z" in ["a", "b", "c"] |
| Search.CrossTypeExamples | inefficient_code.py:73 | 1.0 and True both find 1 |
| Values.ListEquality | inefficient_code.py:73 | two lists are == exactly when they have equal length and their elements are == pairwise |
| EvenSquares.NestedLoopsProcessing | inefficient_code.py:92-106 | a non-list, or a list with a non-int, raises the matching TypeError before any work; otherwise the result is the squares of the even elements in order |
| EvenSquares.TwoPassesAreOne | inefficient_code.py:97-104 | filtering the even elements and then squaring all of them equals the one-pass comprehension |
| EvenSquares.NoLongerThanInput | inefficient_code.py:97-106 | the result is never longer than the input |
| EvenSquares.EmptyIffAllOdd | inefficient_code.py:97-106 | the result is empty exactly when every element is odd |
| EvenSquares.Members | inefficient_code.py:97-106 | y is in the result exactly when y is the square of some even element |
| EvenSquares.KeepsOrder | inefficient_code.py:97-106 | the result for a + b is the result for a followed by the result for b |
| EvenSquares.AllEvenExample | inefficient_code.py:97-106 | [2, 4, 6] gives [4, 16, 36] |
| EvenSquares.AllOddExample | inefficient_code.py:97-106 | [1, 3, 5] gives [] |
| EvenSquares.MixedExample | inefficient_code.py:97-106 | [1, 2, 3, 4, 5, 6] gives [4, 16, 36] |
| EvenSquares.DescendingExample | inefficient_code.py:97-106 | [10, 8, 6, 4, 2] gives [100, 64, 36, 16, 4], in input order |
| EvenSquares.ZeroExample | inefficient_code.py:97-106 | 0 is in the result for [0, 1, 2] |
| RepeatedCalculations.RepeatedCalculations | inefficient_code.py:124-138 | the three argument checks in order; an empty dict when the list is not longer than the threshold; ZeroDivisionError "float division by zero" exactly when an element above the threshold meets a zero average; otherwise each element above the threshold maps to its ratio to the average, under the first equal element's key, in a dict whose entries sit under their key objects' canonical forms |
| RepeatedCalculations.KeysAboveThreshold | inefficient_code.py:133-137 | every key is a number above the threshold |
| RepeatedCalculations.KeySet | inefficient_code.py:132-137 | the keys are exactly the elements above the threshold |
| RepeatedCalculations.RatioExample | inefficient_code.py:131-138 | [15, 20, 25] with threshold 2 files all three, and 20 maps to 1.0 |
| RepeatedCalculations.ZeroAverageExample | inefficient_code.py:133-137 | [-5, 5, 0] with threshold 0 divides by a zero average |
| RepeatedCalculations.EmptyWithDefault | inefficient_code.py:109-131 | an empty list with the default threshold 10 gives {} |
| Dicts.Store | inefficient_code.py:185 | assignment adds the key, holds the new value, keeps the key object stored first, and changes no other entry |
| Dicts.StoreWellFormed | inefficient_code.py:185 | assignment keeps every entry filed under the canonical form of the key object it holds |
| ValueHolder.NewHolder | inefficient_code.py:167-174 | the name check, then the values check, with their messages; otherwise the name, the list (or [] for None) and an empty processed dict |
| ValueHolder.ConstructorExamples | inefficient_code.py:167-174 | InefficientClass("test") has [] and {}; name 123 and values "not a list" raise the tested TypeErrors |
| ValueHolder.FirstFailure | inefficient_code.py:183-185 | the index of the first value whose doubling or hashing raises, or the length when none does |
| ValueHolder.ProcessValues | inefficient_code.py:183-186 | only processed changes; it receives the assignments of every value before the first failing one, in order, and stays well formed; the result is processed, or that value's exception |
| ValueHolder.ProcessValuesUpdates | inefficient_code.py:183-186 | afterwards every value before the first failing one has an entry holding the double of the last value equal to it; a new entry is keyed by the first equal value; old entries keep their key object; entries no value touches are unchanged |
| ValueHolder.AssignWellFormed | inefficient_code.py:183-185 | the assignments keep every entry filed under the canonical form of its key object |
| ValueHolder.AssignKeys | inefficient_code.py:183-185 | the assignments add exactly the keys of the values and remove none |
| ValueHolder.ProcessFresh | inefficient_code.py:183-186 | on an empty processed dict with no failing value, the keys are exactly the values and each holds the double of the last value equal to it |
| ValueHolder.DoublesExample | inefficient_code.py:183-186 | [1, 2, 3] gives {1: 2, 2: 4, 3: 6} |
| ValueHolder.EmptyExample | inefficient_code.py:183-186 | no values give {} |
| ValueHolder.ReprocessingKeepsOldEntries | inefficient_code.py:183-186 | processing [1, 2] and then [3, 4] leaves {1: 2, 2: 4, 3: 6, 4: 8}, not {3: 6, 4: 8} |
| ValueHolder.PySum | inefficient_code.py:201 | sum is the exact total, a float exactly when some value is a float, and otherwise an int (never a bool) |
| ValueHolder.MaxIndex | inefficient_code.py:203 | max is the first value that no other value exceeds |
| ValueHolder.MinIndex | inefficient_code.py:204 | min is the first value that no other value undercuts |
| ValueHolder.GetStats | inefficient_code.py:195-205 | no values give exactly count 0 and average 0; a non-number raises the TypeError that sum raises; otherwise count, sum (an int unless some value is a float), average = total / count, and the first max and min; each entry is keyed by its name string |
| ValueHolder.AverageBetweenMinAndMax | inefficient_code.py:199-205 | the average lies between min and max |
| ValueHolder.EmptyStatsExample | inefficient_code.py:195-196 | no values give {"count": 0, "average": 0} |
| ValueHolder.StatsExample | inefficient_code.py:199-205 | [1, 2, 3, 4, 5] gives count 5, sum 15, average 3.0, max 5, min 1 |
| ValueHolder.SingleStatsExample | inefficient_code.py:199-205 | [42] gives count 1, sum 42, average 42.0, max and min 42 |

## Left out

- `global_variable_function` and the module-level `counter` (inefficient_code.py:141-151) print and mutate global state. They are not part of this model.
- The `__main__` block (inefficient_code.py:208-230) only runs the routines, times them and prints the results.
- Running time is not modelled: the exponential recursion, the quadratic concatenation and the recomputed averages. Only the results are.
- Floating-point arithmetic: a `float` is an exact `real`. The ratios of `RepeatedCalculations.RepeatedCalculations` and the average of `ValueHolder.GetStats` are exact quotients, not rounded doubles. NaN and the infinities are absent.
- Dictionary iteration order is not modelled, because dictionary equality ignores it.
- Object identity and aliasing are not modelled. In particular, `process_values` returns the same dict object it stores.
- A `threshold` that is not an `int` (a `float`, say) is not modelled: `RepeatedCalculations.RepeatedCalculations` takes an integer threshold.
- Values other than None, bool, int, float, str, list and tuple are not represented. So `==` and `hash` on other kinds of object are out.
- Fibonacci.SlowFibonacci: the interpreter's recursion limit is not modelled. The call at inefficient_code.py:28 nests n deep, so `slow_fibonacci(1000)` raises RecursionError under the default limit, while the model returns the 1000th Fibonacci number. The model also formats the negative number in the ValueError at any size, where CPython 3.11 and later raise ValueError for an integer of more than 4300 digits.
- Concatenation.InefficientStringConcatenation: the model formats the number in its ValueError at any size, where CPython 3.11 and later refuse to convert an integer of more than 4300 digits to a string.
- RepeatedCalculations.RepeatedCalculations: the float range is not modelled, and the model divides exactly. In Python the computation raises OverflowError in three cases:
  - `sum(data)` mixes a float with an int beyond the float range, as in `[1.5, 10**400]`;
  - the average `sum(data) / len(data)` lies beyond the float range (int-by-int true division is correctly rounded, so a large total alone does not raise);
  - `value / avg` meets an element that is an int beyond the float range, as in `[10**400, 3 - 10**400, 0]` with threshold 0, whose average is 1.0.
  The 4300-digit limit on formatting the threshold in its ValueError is not modelled either.
- ValueHolder.PySum: the model gives the exact total, where `sum` raises OverflowError when a float meets an int beyond the float range, as in `[1.5, 10**400]`.
- ValueHolder.GetStats: the float range is not modelled, and the model divides exactly. `sum` raises OverflowError when a float meets an int beyond the float range. The average raises OverflowError when it lies beyond the float range.
- The messages of exceptions raised by the interpreter use CPython's wording: "float division by zero", "unhashable type: 'list'" and "unsupported operand type(s) ...". That wording depends on the interpreter version.
- The `inefficient_search` method, a bubble sort, a prime finder, a triple search and a memory-hungry class are described for this system. None of them is in inefficient_code.py, so none is modelled.
