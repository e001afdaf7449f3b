/**
 Python dictionaries. A dictionary files each entry under the canonical form of its
 key, so `1`, `1.0` and `True` share one entry. Assigning to a key already present
 replaces the value but keeps the key object first stored, as CPython does.
 Iteration order is not modelled (dictionary `==` ignores it).
 */
module Dicts {
  import opened Values

  datatype Entry = Entry(key: Value, val: Value)

  type Dict = map<Key, Entry>

  /** Every entry is filed under the canonical form of the key object it holds. */
  predicate WellFormed(d: Dict)
  {
    forall c :: c in d ==> Canon(d[c].key) == c
  }

  /** `d[k] = v`. */
  function Store(d: Dict, k: Value, v: Value): (r: Dict)
    ensures r.Keys == d.Keys + {Canon(k)}
    ensures r[Canon(k)].val == v
    ensures r[Canon(k)].key == if Canon(k) in d then d[Canon(k)].key else k
    ensures forall c :: c in d && c != Canon(k) ==> r[c] == d[c]
  {
    var c := Canon(k);
    if c in d then d[c := Entry(d[c].key, v)] else d[c := Entry(k, v)]
  }

  /** Assignment keeps every entry under the canonical form of its key object. */
  lemma StoreWellFormed(d: Dict, k: Value, v: Value)
    requires WellFormed(d)
    ensures WellFormed(Store(d, k, v))
  {
  }

  /** `k in d`. */
  predicate Has(d: Dict, k: Value)
  {
    Canon(k) in d
  }

  /** `d[k]`, for a key that is present. */
  function Get(d: Dict, k: Value): (v: Value)
    requires Has(d, k)
  {
    d[Canon(k)].val
  }
}
