// Values as (data, context) pairs (lena/flow/functions.py).

module FlowFunctions {
  import opened Values

  /** `_has_context(value)`: a tuple of length two whose second item is a
      dictionary. */
  predicate HasContext(v: Val)
  {
    v.VTuple? && |v.items| == 2 && v.items[1].VDict?
  }

  /** A (data, context) pair. */
  function Pair(data: Val, context: Dict): (r: Val)
    ensures HasContext(r)
  {
    VTuple([data, VDict(context)])
  }

  /** `get_data(value)`. */
  function GetData(v: Val): (r: Val)
    ensures !HasContext(v) ==> r == v
  {
    if HasContext(v) then v.items[0] else v
  }

  /** `get_context(value)`: the context, or an empty one. */
  function GetContext(v: Val): (r: Dict)
    ensures !HasContext(v) ==> r == map[]
  {
    if HasContext(v) then v.items[1].m else map[]
  }

  /** `get_data_context(value)`. */
  function GetDataContext(v: Val): (r: (Val, Dict))
    ensures r == (GetData(v), GetContext(v))
  {
    if HasContext(v) then (v.items[0], v.items[1].m) else (v, map[])
  }

  /** Splitting a pair gives back its parts, and a value with a context is
      the pair of its parts. */
  lemma PairRoundTrip(data: Val, context: Dict, v: Val)
    ensures GetDataContext(Pair(data, context)) == (data, context)
    ensures HasContext(v) ==> Pair(GetData(v), GetContext(v)) == v
  {
    if HasContext(v) {
      assert v.items == [v.items[0], v.items[1]];
    }
  }
}
