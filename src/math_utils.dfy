// Clipping a value to an interval (lena/math/utils.py).

module MathUtils {
  import opened Wrappers
  import opened Values

  /** `len(v)` for the values that have a length. */
  function Len(v: Val): (r: Option<nat>)
    ensures r.Some? <==> (v.VStr? || v.VList? || v.VTuple? || v.VDict?)
  {
    match v
    case VStr(s) => Some(|s|)
    case VList(items) => Some(|items|)
    case VTuple(items) => Some(|items|)
    case VDict(m) => Some(|m|)
    case _ => None
  }

  /** `v[k]` on a sequence whose length exceeds *k*. */
  function ItemAt(v: Val, k: nat): (r: Val)
    requires v.VStr? || v.VList? || v.VTuple?
    requires k < Len(v).value
    ensures (v.VList? || v.VTuple?) ==> r == v.items[k]
  {
    match v
    case VStr(s) => VStr([s[k]])
    case VList(items) => items[k]
    case VTuple(items) => items[k]
  }

  /** Lexicographic order of strings, by code point. */
  predicate StrLess(s: string, t: string)
    decreases |s|
  {
    if |s| == 0 then |t| > 0
    else if |t| == 0 then false
    else s[0] < t[0] || (s[0] == t[0] && StrLess(s[1..], t[1..]))
  }

  /** Whether two values are sequences of the same kind, which Python
      orders item by item. */
  predicate SameKindSeqs(x: Val, y: Val)
  {
    (x.VList? && y.VList?) || (x.VTuple? && y.VTuple?)
  }

  /** `x < y`: numbers compare by value, strings lexicographically, and two
      lists or two tuples item by item; any other pair of types is a
      TypeError. */
  function Less(x: Val, y: Val): (r: Result<bool>)
    ensures Number(x).Some? && Number(y).Some? ==> r == Success(Number(x).value < Number(y).value)
    ensures x.VStr? && y.VStr? ==> r == Success(StrLess(x.s, y.s))
    ensures r.Success? ==> (Number(x).Some? && Number(y).Some?) || (x.VStr? && y.VStr?) || SameKindSeqs(x, y)
    ensures r.Failure? ==> r.error == PyTypeError
    decreases x, 1
  {
    if Number(x).Some? && Number(y).Some? then Success(Number(x).value < Number(y).value)
    else if x.VStr? && y.VStr? then Success(StrLess(x.s, y.s))
    else if SameKindSeqs(x, y) then SeqLessFrom(x, y, 0)
    else Failure(PyTypeError)
  }

  /** Python's sequence order from position *k* on: the first items that
      differ under `==` decide with `<`; when one sequence runs out first,
      it is the smaller. */
  function SeqLessFrom(x: Val, y: Val, k: nat): (r: Result<bool>)
    requires SameKindSeqs(x, y)
    ensures r.Failure? ==> r.error == PyTypeError
    decreases x, 0, |x.items| - k
  {
    if k >= |x.items| || k >= |y.items| then Success(|x.items| - k < |y.items| - k)
    else if PyEq(x.items[k], y.items[k]) then SeqLessFrom(x, y, k + 1)
    else Less(x.items[k], y.items[k])
  }

  /** No list or tuple is smaller than itself, whatever it holds. */
  lemma {:induction false} SeqLessIrreflexive(x: Val, k: nat)
    requires x.VList? || x.VTuple?
    ensures SeqLessFrom(x, x, k) == Success(false)
    decreases |x.items| - k
  {
    if k < |x.items| {
      SeqLessIrreflexive(x, k + 1);
    }
  }

  /** `x < x` is False for every value that can be ordered. */
  lemma LessIrreflexive(x: Val)
    requires Number(x).Some? || x.VStr? || x.VList? || x.VTuple?
    ensures Less(x, x) == Success(false)
  {
    if x.VStr? {
      StrLessIrreflexive(x.s);
    } else if x.VList? || x.VTuple? {
      SeqLessIrreflexive(x, 0);
    }
  }

  lemma {:induction false} StrLessIrreflexive(s: string)
    ensures !StrLess(s, s)
    decreases |s|
  {
    if |s| > 0 {
      StrLessIrreflexive(s[1..]);
    }
  }

  /** A list is smaller than any longer list it begins. */
  lemma {:induction false} SeqLessPrefix(xs: seq<Val>, ys: seq<Val>, k: nat)
    requires k <= |xs|
    ensures SeqLessFrom(VList(xs), VList(xs + ys), k) == Success(ys != [])
    decreases |xs| - k
  {
    var x, y := VList(xs), VList(xs + ys);
    if k < |xs| {
      assert y.items[k] == x.items[k];
      SeqLessPrefix(xs, ys, k + 1);
    }
  }

  /** `clip([1], ([0], [2]))` orders the lists item by item and gives [1]. */
  lemma ClipLists()
    ensures Clip(VList([VInt(1)]), VTuple([VList([VInt(0)]), VList([VInt(2)])])) == Success(VList([VInt(1)]))
  {
    var a, lo, hi := VList([VInt(1)]), VList([VInt(0)]), VList([VInt(2)]);
    assert !PyEq(VInt(2), VInt(0)) && !PyEq(VInt(1), VInt(2)) && !PyEq(VInt(1), VInt(0));
    assert Less(hi, lo) == Success(false);
    assert Less(a, hi) == Success(true);
    assert Less(a, lo) == Success(false);
  }

  /** `clip(a, interval)`: `max(min(a_max, a), a_min)` after checking that
      the interval is a container of two increasing values. `min` keeps
      its first argument unless the second is smaller, `max` unless the
      second is larger, so the value returned is one of the three given:
      a value equal to an edge may come back as that edge (1.0 clipped to
      (0, 1) is the integer 1). */
  function Clip(a: Val, interval: Val): (r: Result<Val>)
    ensures Len(interval).None? ==> r == Failure(LenaTypeError)
    ensures Len(interval).Some? && Len(interval).value != 2 ==> r == Failure(LenaValueError)
    ensures r.Success? ==> interval.VStr? || interval.VList? || interval.VTuple?
    ensures (interval.VList? || interval.VTuple?) && |interval.items| == 2 ==>
              var lo, hi := interval.items[0], interval.items[1];
              && (r.Success? ==> r.value in {a, lo, hi})
              && (Number(a).Some? && Number(lo).Some? && Number(hi).Some? ==>
                    (r.Failure? <==> Number(hi).value < Number(lo).value)
                    && (r.Failure? ==> r.error == LenaValueError)
                    && (r.Success? ==> Number(r.value).Some? && Number(lo).value <= Number(r.value).value <= Number(hi).value)
                    && (r.Success? && Number(lo).value <= Number(a).value <= Number(hi).value ==>
                          Number(r.value).value == Number(a).value)
                    && (r.Success? && Number(lo).value < Number(a).value < Number(hi).value ==> r.value == a))
  {
    match Len(interval)
    case None => Failure(LenaTypeError)
    case Some(l) =>
      if l != 2 then Failure(LenaValueError)
      // a dictionary (with string keys) has no integer key
      else if interval.VDict? then Failure(PyKeyError)
      else
        var lo, hi := ItemAt(interval, 0), ItemAt(interval, 1);
        var decreasing :- Less(hi, lo);
        if decreasing then Failure(LenaValueError)
        else
          var below :- Less(a, hi);
          var m := if below then a else hi;
          var raise :- Less(m, lo);
          Success(if raise then lo else m)
  }

  /** Clipping a clipped value changes nothing: the very value comes back
      when the edges differ, and an equal number when they are equal (the
      edges 1 and 1.0 turn 0 into 1 and then 1 into 1.0). */
  lemma ClipIdempotent(a: Val, lo: Val, hi: Val)
    requires Number(a).Some? && Number(lo).Some? && Number(hi).Some?
    requires Clip(a, VTuple([lo, hi])).Success?
    ensures var c := Clip(a, VTuple([lo, hi])).value;
            && Clip(c, VTuple([lo, hi])).Success?
            && Number(Clip(c, VTuple([lo, hi])).value) == Number(c)
            && (Number(lo).value < Number(hi).value ==> Clip(c, VTuple([lo, hi])).value == c)
  {
    var c := Clip(a, VTuple([lo, hi])).value;
    assert c in {a, lo, hi};
  }

  /** Equal edges of different types: clipping twice is not the identity. */
  lemma ClipTwiceEqualEdges()
    ensures Clip(VInt(0), VTuple([VInt(1), VReal(1.0)])) == Success(VInt(1))
    ensures Clip(VInt(1), VTuple([VInt(1), VReal(1.0)])) == Success(VReal(1.0))
  {
  }

  /** Values outside the interval become its nearer edge. */
  lemma ClipOutside(a: Val, lo: Val, hi: Val)
    requires Number(a).Some? && Number(lo).Some? && Number(hi).Some?
    requires Number(lo).value <= Number(hi).value
    ensures Number(a).value < Number(lo).value ==> Clip(a, VTuple([lo, hi])) == Success(lo)
    ensures Number(hi).value < Number(a).value ==> Clip(a, VTuple([lo, hi])) == Success(hi)
  {
  }

  /** The examples: -1 clipped to (0, 1) is 0, 2 clipped to [0, 1] is 1,
      and 0.5 stays. */
  lemma ClipExamples()
    ensures Clip(VInt(-1), VTuple([VInt(0), VInt(1)])) == Success(VInt(0))
    ensures Clip(VInt(2), VList([VInt(0), VInt(1)])) == Success(VInt(1))
    ensures Clip(VReal(0.5), VTuple([VInt(0), VInt(1)])) == Success(VReal(0.5))
    ensures Clip(VInt(0), VTuple([VInt(1), VInt(0)])) == Failure(LenaValueError)
    ensures Clip(VInt(0), VList([VInt(0), VInt(1), VInt(2)])) == Failure(LenaValueError)
    ensures Clip(VInt(0), VInt(1)) == Failure(LenaTypeError)
  {
  }
}
