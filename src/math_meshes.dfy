// Multidimensional data: flattening and mapping (lena/math/meshes.py).

module MathMeshes {
  import opened Wrappers
  import opened Values
  import opened CoreRun

  /** Lists and tuples are descended into; anything else is a leaf. */
  predicate Nested(v: Val)
  {
    v.VList? || v.VTuple?
  }

  /** The leaves of the items, depth first. */
  function FlattenItems(items: seq<Val>): (r: seq<Val>)
    ensures forall i :: 0 <= i < |r| ==> !Nested(r[i])
    decreases items
  {
    if |items| == 0 then []
    else
      var first := items[0];
      (if Nested(first) then FlattenItems(first.items) else [first]) + FlattenItems(items[1..])
  }

  /** `flatten(array)`: the leaves of an iterable of arbitrary depth; a
      string is iterated by characters, a value that is not iterable is a
      TypeError. */
  function Flatten(arr: Val): (r: Result<seq<Val>>)
    ensures Nested(arr) ==> r == Success(FlattenItems(arr.items))
    ensures r.Failure? <==> !(Nested(arr) || arr.VStr?)
  {
    var items :- Iterate(arr);
    Success(FlattenItems(items))
  }

  /** Flattening a concatenation flattens each part. */
  lemma {:induction false} FlattenAppend(a: seq<Val>, b: seq<Val>)
    ensures FlattenItems(a + b) == FlattenItems(a) + FlattenItems(b)
    decreases |a|
  {
    if |a| == 0 {
      assert a + b == b;
    } else {
      assert (a + b)[0] == a[0] && (a + b)[1..] == a[1..] + b;
      FlattenAppend(a[1..], b);
    }
  }

  /** Items none of which is nested are their own leaves. */
  lemma {:induction false} FlattenFlat(items: seq<Val>)
    requires forall i :: 0 <= i < |items| ==> !Nested(items[i])
    ensures FlattenItems(items) == items
    decreases |items|
  {
    if |items| > 0 {
      FlattenFlat(items[1..]);
    }
  }

  /** Flattening the leaves again changes nothing. */
  lemma FlattenIdempotent(arr: Val)
    requires Flatten(arr).Success?
    ensures Flatten(VList(Flatten(arr).value)) == Flatten(arr)
  {
    FlattenFlat(Flatten(arr).value);
  }

  lemma FlattenOne(x: Val)
    ensures FlattenItems([x]) == if Nested(x) then FlattenItems(x.items) else [x]
  {
    var r := if Nested(x) then FlattenItems(x.items) else [x];
    assert [x][1..] == [];
    assert r + [] == r;
  }

  /** The example `[[1, 2, 3, [4]], 5, [[6]], 7]` flattens to 1, ..., 7. */
  lemma FlattenExample(v1: Val, v2: Val, v3: Val, v4: Val, v5: Val, v6: Val, v7: Val)
    requires !Nested(v1) && !Nested(v2) && !Nested(v3) && !Nested(v4)
    requires !Nested(v5) && !Nested(v6) && !Nested(v7)
    ensures Flatten(VList([VList([v1, v2, v3, VList([v4])]), v5, VList([VList([v6])]), v7]))
            == Success([v1, v2, v3, v4, v5, v6, v7])
  {
    var x0, x2 := VList([v1, v2, v3, VList([v4])]), VList([VList([v6])]);
    var a := [x0, v5, x2, v7];
    assert a == [x0] + [v5] + [x2] + [v7];
    FlattenAppend([x0] + [v5] + [x2], [v7]);
    FlattenAppend([x0] + [v5], [x2]);
    FlattenAppend([x0], [v5]);
    FlattenOne(x0);
    FlattenOne(v5);
    FlattenOne(x2);
    FlattenOne(v7);
    FlattenOne(VList([v6]));
    FlattenOne(v6);
    assert FlattenItems([x2]) == [v6];
    assert x0.items == [v1, v2, v3] + [VList([v4])];
    FlattenAppend([v1, v2, v3], [VList([v4])]);
    FlattenFlat([v1, v2, v3]);
    FlattenOne(VList([v4]));
    FlattenOne(v4);
    assert FlattenItems([x0]) == [v1, v2, v3, v4];
    calc {
      FlattenItems(a);
      FlattenItems([x0] + [v5] + [x2]) + FlattenItems([v7]);
      FlattenItems([x0]) + FlattenItems([v5]) + FlattenItems([x2]) + FlattenItems([v7]);
      [v1, v2, v3, v4] + [v5] + [v6] + [v7];
      [v1, v2, v3, v4, v5, v6, v7];
    }
    assert Flatten(VList(a)) == Success(FlattenItems(a));
  }

  /** A function of one argument that may raise. */
  type Fn = Val -> Result<Val>

  /** `[f(val) for val in items]`: the first error is raised. */
  function MapEach(f: Fn, items: seq<Val>): (r: Result<seq<Val>>)
    ensures r.Success? <==> forall i :: 0 <= i < |items| ==> f(items[i]).Success?
    ensures r.Success? ==> |r.value| == |items| && forall i :: 0 <= i < |items| ==> f(items[i]) == Success(r.value[i])
    ensures r.Failure? ==> exists i :: 0 <= i < |items| && f(items[i]) == Failure(r.error)
    decreases |items|
  {
    if |items| == 0 then Success([])
    else
      var first :- f(items[0]);
      assert forall i :: 1 <= i < |items| ==> items[1..][i - 1] == items[i];
      var rest :- MapEach(f, items[1..]);
      Success([first] + rest)
  }

  /** `md_map(f, array)` as written: meshes.py imports only `count` and
      `islice` and never `lena`, so the `raise lena.core.LenaTypeError` for
      a value that is not a list raises NameError instead, at any depth. */
  function MdMapAsWritten(f: Fn, arr: Val): (r: Result<Val>)
    ensures !arr.VList? ==> r == Failure(PyNameError)
    ensures r.Success? ==> r.value.VList? && |r.value.items| == |arr.items|
    decreases arr, 1
  {
    if !arr.VList? then Failure(PyNameError)
    else if |arr.items| == 0 then Success(VList([]))
    else if arr.items[0].VList? then
      var rs :- MdMapAsWrittenFrom(f, arr, 0);
      Success(VList(rs))
    else
      var rs :- MapEach(f, arr.items);
      Success(VList(rs))
  }

  function MdMapAsWrittenFrom(f: Fn, arr: Val, k: nat): (r: Result<seq<Val>>)
    requires arr.VList? && k <= |arr.items|
    ensures r.Success? ==> |r.value| == |arr.items| - k
    decreases arr, 0, |arr.items| - k
  {
    if k == |arr.items| then Success([])
    else
      var first :- MdMapAsWritten(f, arr.items[k]);
      var rest :- MdMapAsWrittenFrom(f, arr, k + 1);
      Success([first] + rest)
  }

  /** A LenaTypeError becomes the NameError the code as written raises. */
  function AsNameError<T>(r: Result<T>): Result<T>
  {
    if r == Failure(LenaTypeError) then Failure(PyNameError) else r
  }

  /** For a function that raises neither LenaTypeError nor NameError, the
      code as written computes what the corrected `md_map` computes, except
      that its LenaTypeError for a value that is not a list is a NameError. */
  lemma {:induction false} MdMapAsWrittenRenames(f: Fn, arr: Val)
    requires forall v :: f(v) != Failure(LenaTypeError) && f(v) != Failure(PyNameError)
    ensures MdMapAsWritten(f, arr) == AsNameError(MdMap(f, arr))
    decreases arr, 1
  {
    if arr.VList? && |arr.items| > 0 {
      if arr.items[0].VList? {
        MdMapAsWrittenFromRenames(f, arr, 0);
      } else {
        var m := MapEach(f, arr.items);
        if m.Failure? {
          var i :| 0 <= i < |arr.items| && f(arr.items[i]) == Failure(m.error);
        }
      }
    }
  }

  lemma {:induction false} MdMapAsWrittenFromRenames(f: Fn, arr: Val, k: nat)
    requires arr.VList? && k <= |arr.items|
    requires forall v :: f(v) != Failure(LenaTypeError) && f(v) != Failure(PyNameError)
    ensures MdMapAsWrittenFrom(f, arr, k) == AsNameError(MdMapFrom(f, arr, k))
    decreases arr, 0, |arr.items| - k
  {
    if k < |arr.items| {
      assert arr.items[k] < arr;
      MdMapAsWrittenRenames(f, arr.items[k]);
      MdMapAsWrittenFromRenames(f, arr, k + 1);
    }
  }

  /** `md_map(f, array)` as intended: the array must be a list. An empty list gives an
      empty list; when its first item is a list, every item is mapped
      recursively (and so must be a list), otherwise *f* is applied to
      every item. */
  function MdMap(f: Fn, arr: Val): (r: Result<Val>)
    ensures !arr.VList? ==> r == Failure(LenaTypeError)
    ensures r.Success? ==> r.value.VList? && |r.value.items| == |arr.items|
    decreases arr, 1
  {
    if !arr.VList? then Failure(LenaTypeError)
    else if |arr.items| == 0 then Success(VList([]))
    else if arr.items[0].VList? then
      var rs :- MdMapFrom(f, arr, 0);
      Success(VList(rs))
    else
      var rs :- MapEach(f, arr.items);
      Success(VList(rs))
  }

  /** The recursive maps of the items from the *k*-th on. */
  function MdMapFrom(f: Fn, arr: Val, k: nat): (r: Result<seq<Val>>)
    requires arr.VList? && k <= |arr.items|
    ensures r.Success? ==> |r.value| == |arr.items| - k
    ensures r.Success? ==> forall i :: k <= i < |arr.items| ==> MdMap(f, arr.items[i]) == Success(r.value[i - k])
    ensures r.Success? <==> forall i :: k <= i < |arr.items| ==> MdMap(f, arr.items[i]).Success?
    decreases arr, 0, |arr.items| - k
  {
    if k == |arr.items| then Success([])
    else
      var first :- MdMap(f, arr.items[k]);
      var rest :- MdMapFrom(f, arr, k + 1);
      Success([first] + rest)
  }

  /** The identity mapped over an array gives the array back, whenever
      the array is regular enough for `md_map`. */
  lemma {:induction false} MdMapIdentity(arr: Val)
    requires MdMap(x => Success(x), arr).Success?
    ensures MdMap(x => Success(x), arr) == Success(arr)
    decreases arr
  {
    var id: Fn := x => Success(x);
    var items := arr.items;
    var r := MdMap(id, arr).value;
    if |items| > 0 {
      if items[0].VList? {
        forall i | 0 <= i < |items|
          ensures r.items[i] == items[i]
        {
          assert items[i] < arr;
          MdMapIdentity(items[i]);
        }
      } else {
        assert forall i :: 0 <= i < |items| ==> id(items[i]) == Success(items[i]);
      }
      assert r.items == items;
    }
  }

  /** Mapping with *f* and then with *g* is mapping with *g* after *f*,
      as long as *f* never returns a list (which would change the depth). */
  lemma {:induction false} MdMapCompose(f: Fn, g: Fn, arr: Val, b: Val, c: Val)
    requires forall v :: f(v).Success? ==> !f(v).value.VList?
    requires MdMap(f, arr) == Success(b) && MdMap(g, b) == Success(c)
    ensures MdMap(x => if f(x).Success? then g(f(x).value) else f(x), arr) == Success(c)
    decreases arr
  {
    var h: Fn := x => if f(x).Success? then g(f(x).value) else f(x);
    var items := arr.items;
    if |items| > 0 {
      if items[0].VList? {
        forall i | 0 <= i < |items|
          ensures MdMap(h, items[i]) == Success(c.items[i])
        {
          assert items[i] < arr;
          assert MdMap(f, items[i]) == Success(b.items[i]);
          assert b.items[0].VList?;
          assert MdMap(g, b.items[i]) == Success(c.items[i]);
          MdMapCompose(f, g, items[i], b.items[i], c.items[i]);
        }
        var r := MdMapFrom(h, arr, 0);
        assert r.Success? && r.value == c.items;
      } else {
        assert f(items[0]) == Success(b.items[0]);
        assert !b.items[0].VList?;
        forall i | 0 <= i < |items|
          ensures h(items[i]) == Success(c.items[i])
        {
          assert f(items[i]) == Success(b.items[i]);
          assert g(b.items[i]) == Success(c.items[i]);
        }
        var r := MapEach(h, items);
        assert r.Success? && r.value == c.items;
      }
    }
  }

  /** The examples: `abs` over `[-1, 1, 0]` and over `[[0, -1], [2, 3]]`. */
  lemma MdMapExamples(abs: Fn)
    requires forall i: int :: abs(VInt(i)) == Success(VInt(if i < 0 then -i else i))
    ensures MdMap(abs, VList([VInt(-1), VInt(1), VInt(0)])) == Success(VList([VInt(1), VInt(1), VInt(0)]))
    ensures MdMap(abs, VList([VList([VInt(0), VInt(-1)]), VList([VInt(2), VInt(3)])]))
            == Success(VList([VList([VInt(0), VInt(1)]), VList([VInt(2), VInt(3)])]))
    ensures MdMap(abs, VList([])) == Success(VList([]))
    ensures MdMap(abs, VTuple([VInt(1)])) == Failure(LenaTypeError)
    ensures MdMapAsWritten(abs, VTuple([VInt(0), VInt(1)])) == Failure(PyNameError)
  {
    assert abs(VInt(-1)) == Success(VInt(1));
    assert abs(VInt(0)) == Success(VInt(0));
    assert abs(VInt(1)) == Success(VInt(1));
    assert abs(VInt(2)) == Success(VInt(2));
    assert abs(VInt(3)) == Success(VInt(3));
    var flat := MapEach(abs, [VInt(-1), VInt(1), VInt(0)]);
    assert flat.Success? && flat.value == [VInt(1), VInt(1), VInt(0)];
    var inner := [VList([VInt(0), VInt(-1)]), VList([VInt(2), VInt(3)])];
    var e0 := MapEach(abs, [VInt(0), VInt(-1)]);
    assert e0.Success? && e0.value == [VInt(0), VInt(1)];
    var m0 := MdMap(abs, inner[0]);
    assert m0 == Success(VList([VInt(0), VInt(1)]));
    var e1 := MapEach(abs, [VInt(2), VInt(3)]);
    assert e1.Success? && e1.value == [VInt(2), VInt(3)];
    var m1 := MdMap(abs, inner[1]);
    assert m1 == Success(VList([VInt(2), VInt(3)]));
    var r := MdMapFrom(abs, VList(inner), 0);
    assert r.Success? && r.value == [m0.value, m1.value];
  }
}
