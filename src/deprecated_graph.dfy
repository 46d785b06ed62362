// The deprecated `Graph` element (lena/structures/graph.py, class
// `Graph`): points filled one by one, sorted and checked on update.

module StructuresDeprecatedGraph {
  import opened Wrappers
  import opened Values
  import opened FlowFunctions
  import opened MathUtils

  // ------------------------------------------------------------------
  // Sorting points

  /** `<` on points, as a strict total order. */
  ghost predicate StrictTotal(less: (Val, Val) -> bool)
  {
    && (forall a :: !less(a, a))
    && (forall a, b, c :: less(a, b) && less(b, c) ==> less(a, c))
    && (forall a, b :: a != b ==> less(a, b) || less(b, a))
  }

  /** No point is less than one before it. */
  predicate Sorted(s: seq<Val>, less: (Val, Val) -> bool)
  {
    forall i, j :: 0 <= i < j < |s| ==> !less(s[j], s[i])
  }

  /** The point placed before the first point that is not less than it. */
  function Insert(x: Val, s: seq<Val>, less: (Val, Val) -> bool): (r: seq<Val>)
    ensures multiset(r) == multiset(s) + multiset{x}
    decreases |s|
  {
    if |s| == 0 then [x]
    else if less(s[0], x) then
      assert s == [s[0]] + s[1..];
      [s[0]] + Insert(x, s[1..], less)
    else [x] + s
  }

  /** `sorted(points)`. */
  function SortBy(s: seq<Val>, less: (Val, Val) -> bool): (r: seq<Val>)
    ensures multiset(r) == multiset(s)
    decreases |s|
  {
    if |s| == 0 then []
    else
      assert s == [s[0]] + s[1..];
      Insert(s[0], SortBy(s[1..], less), less)
  }

  lemma {:induction false} InsertSorted(x: Val, s: seq<Val>, less: (Val, Val) -> bool)
    requires StrictTotal(less) && Sorted(s, less)
    ensures Sorted(Insert(x, s, less), less)
    decreases |s|
  {
    if |s| > 0 && less(s[0], x) {
      var t := s[1..];
      InsertSorted(x, t, less);
      var r := Insert(x, t, less);
      forall j | 0 <= j < |r|
        ensures !less(r[j], s[0])
      {
        assert r[j] in multiset(r);
        if r[j] != x {
          assert r[j] in multiset(t);
          var i :| 0 <= i < |t| && t[i] == r[j];
          assert s[i + 1] == r[j];
        }
      }
      ConsSorted(s[0], r, less);
    } else if |s| > 0 {
      // x is not greater than s[0], so not greater than any later point
      forall j | 0 <= j < |s|
        ensures !less(s[j], x)
      {
        if j > 0 {
          assert !less(s[j], s[0]);
          assert s[j] == s[0] || less(s[0], s[j]);
        }
      }
      ConsSorted(x, s, less);
    }
  }

  /** A point not greater than any of a sorted sequence's points can go in
      front. */
  lemma ConsSorted(h: Val, r: seq<Val>, less: (Val, Val) -> bool)
    requires Sorted(r, less) && forall j :: 0 <= j < |r| ==> !less(r[j], h)
    ensures Sorted([h] + r, less)
  {
  }

  /** The sorted points are sorted. */
  lemma {:induction false} SortSorted(s: seq<Val>, less: (Val, Val) -> bool)
    requires StrictTotal(less)
    ensures Sorted(SortBy(s, less), less)
    decreases |s|
  {
    if |s| > 0 {
      SortSorted(s[1..], less);
      InsertSorted(s[0], SortBy(s[1..], less), less);
    }
  }

  /** Sorted sequences of the same points are equal. */
  lemma {:induction false} SortedUnique(a: seq<Val>, b: seq<Val>, less: (Val, Val) -> bool)
    requires StrictTotal(less)
    requires Sorted(a, less) && Sorted(b, less) && multiset(a) == multiset(b)
    ensures a == b
    decreases |a|
  {
    if |a| > 0 {
      assert |b| == |multiset(b)| == |a| > 0;
      SortedHeads(a, b, less);
      SortedTail(a, less);
      SortedTail(b, less);
      SortedUnique(a[1..], b[1..], less);
      assert a == [a[0]] + a[1..] && b == [b[0]] + b[1..];
    }
  }

  /** Without its first point, a sorted sequence is sorted and holds the
      other points. */
  lemma SortedTail(a: seq<Val>, less: (Val, Val) -> bool)
    requires |a| > 0 && Sorted(a, less)
    ensures Sorted(a[1..], less)
    ensures multiset(a[1..]) == multiset(a) - multiset{a[0]}
  {
    assert a == [a[0]] + a[1..];
  }

  /** Sorted sequences of the same points begin with the same point. */
  lemma SortedHeads(a: seq<Val>, b: seq<Val>, less: (Val, Val) -> bool)
    requires StrictTotal(less)
    requires Sorted(a, less) && Sorted(b, less) && multiset(a) == multiset(b)
    requires |a| > 0 && |b| > 0
    ensures a[0] == b[0]
  {
    assert a[0] in multiset(b) && b[0] in multiset(a);
    var j :| 0 <= j < |b| && b[j] == a[0];
    var i :| 0 <= i < |a| && a[i] == b[0];
    assert !less(a[0], b[0]) by {
      if j > 0 {
        assert !less(b[j], b[0]);
      }
    }
    assert !less(b[0], a[0]) by {
      if i > 0 {
        assert !less(a[i], a[0]);
      }
    }
  }

  /** Sorting sorted points changes nothing; so sorting twice is sorting
      once. */
  lemma SortIdempotent(s: seq<Val>, less: (Val, Val) -> bool)
    requires StrictTotal(less)
    ensures Sorted(s, less) ==> SortBy(s, less) == s
    ensures SortBy(SortBy(s, less), less) == SortBy(s, less)
  {
    SortSorted(s, less);
    SortSorted(SortBy(s, less), less);
    if Sorted(s, less) {
      SortedUnique(SortBy(s, less), s, less);
    }
    SortedUnique(SortBy(SortBy(s, less), less), SortBy(s, less), less);
  }

  // ------------------------------------------------------------------
  // Dimensions of points

  /** `point[0]`: the first item of a sequence; an empty one is an
      IndexError, anything else a TypeError. */
  function First(point: Val): (r: Result<Val>)
    ensures (point.VTuple? || point.VList?) && |point.items| > 0 ==> r == Success(point.items[0])
  {
    match point
    case VTuple(items) => if |items| == 0 then Failure(PyIndexError) else Success(items[0])
    case VList(items) => if |items| == 0 then Failure(PyIndexError) else Success(items[0])
    case VStr(s) => if |s| == 0 then Failure(PyIndexError) else Success(VStr([s[0]]))
    case _ => Failure(PyTypeError)
  }

  /** `coord_dim(point[0])`: the length of a coordinate that has one,
      otherwise 1. */
  function CoordDim(point: Val): (r: Result<nat>)
    ensures r.Failure? ==> r.error == PyIndexError || r.error == PyTypeError
    ensures r.Success? ==> First(point).Success? && r.value == (match Len(First(point).value) case Some(n) => n case None => 1)
  {
    var coord :- First(point);
    match Len(coord)
    case Some(n) => Success(n)
    case None => Success(1)
  }

  /** The dimension of the first point's coordinate, when every point's
      coordinate has it; the points are examined in order, and the first
      error or mismatch is raised. */
  function CheckDims(points: seq<Val>, dim: nat): (r: Result<()>)
    ensures r.Success? <==> forall k :: 0 <= k < |points| ==> CoordDim(points[k]) == Success(dim)
    ensures r.Failure? ==> exists k :: 0 <= k < |points| && CoordDim(points[k]) != Success(dim)
    ensures r.Failure? ==> r.error == PyIndexError || r.error == PyTypeError || r.error == LenaValueError
    decreases |points|
  {
    if |points| == 0 then Success(())
    else
      var init := points[..|points| - 1];
      var _ :- CheckDims(init, dim);
      var d :- CoordDim(points[|points| - 1]);
      if d != dim then Failure(LenaValueError) else Success(())
  }

  function PointsDim(points: seq<Val>): (r: Result<nat>)
    requires |points| > 0
    ensures r.Success? <==> CoordDim(points[0]).Success? && forall k :: 0 <= k < |points| ==> CoordDim(points[k]) == CoordDim(points[0])
    ensures r.Success? ==> forall k :: 0 <= k < |points| ==> CoordDim(points[k]) == Success(r.value)
    ensures r.Failure? ==> r.error == PyIndexError || r.error == PyTypeError || r.error == LenaValueError
  {
    var dim :- CoordDim(points[0]);
    var _ :- CheckDims(points, dim);
    Success(dim)
  }

  // ------------------------------------------------------------------
  // The element

  /** A scale given in the context: present and not None. */
  function ContextScale(context: Dict): Option<Val>
  {
    if "scale" in context && context["scale"] != VNone then Some(context["scale"]) else None
  }

  /** The attributes of a graph element that change. */
  datatype GraphState = GraphState(points: seq<Val>, curContext: Dict, scale: Val, context: Dict, dim: Option<nat>)

  /** `_update()` on a state: a scale in the current context must agree
      with one already set (else LenaRuntimeError, nothing changed) and
      becomes the scale; the points are sorted if *sort* is set; the
      output context is the current one updated with the initial one and
      the scale; and when there are points, all their coordinates must
      have the first one's dimension (else the error is raised with the
      rest already done), which is recorded in the context. */
  function Updated(st: GraphState, initContext: Dict, sort: bool, less: (Val, Val) -> bool): (Result<()>, GraphState)
  {
    var cs := ContextScale(st.curContext);
    if cs.Some? && st.scale != VNone && !PyEq(st.scale, cs.value) then (Failure(LenaRuntimeError), st)
    else
      var scale := if cs.Some? then cs.value else st.scale;
      var points := if sort then SortBy(st.points, less) else st.points;
      var context := st.curContext + initContext + map["scale" := scale];
      var st1 := st.(points := points, scale := scale, context := context);
      if |points| == 0 then (Success(()), st1)
      else
        match PointsDim(points)
        case Failure(e) => (Failure(e), st1)
        case Success(d) => (Success(()), st1.(context := context["dim" := VInt(d)], dim := Some(d)))
  }

  /** A scale in the current context agrees with the graph's scale,
      unless one of them is None. */
  predicate ScalesAgree(st: GraphState)
  {
    var cs := ContextScale(st.curContext);
    cs.None? || st.scale == VNone || PyEq(st.scale, cs.value)
  }

  /** Unless the scales conflict, an update keeps the same points, sorted
      when asked to. */
  lemma UpdateSorts(st: GraphState, initContext: Dict, sort: bool, less: (Val, Val) -> bool)
    requires StrictTotal(less) && ScalesAgree(st)
    ensures var st2 := Updated(st, initContext, sort, less).1;
            && multiset(st2.points) == multiset(st.points)
            && (sort ==> Sorted(st2.points, less))
            && (!sort ==> st2.points == st.points)
  {
    SortSorted(st.points, less);
  }

  /** Unless the scales conflict, an update takes the scale of the
      context when it has one, and gives a context holding that scale and
      the current context's other entries; the current context is kept. */
  lemma UpdateContext(st: GraphState, initContext: Dict, sort: bool, less: (Val, Val) -> bool)
    requires ScalesAgree(st) && initContext.Keys == {"scale"}
    ensures var st2 := Updated(st, initContext, sort, less).1;
            var cs := ContextScale(st.curContext);
            && st2.scale == (if cs.Some? then cs.value else st.scale)
            && "scale" in st2.context && st2.context["scale"] == st2.scale
            && (forall k :: k in st.curContext && k != "scale" && k != "dim" ==> k in st2.context && st2.context[k] == st.curContext[k])
            && st2.curContext == st.curContext
  {
  }

  /** Conflicting scales raise and change nothing. */
  lemma UpdateConflict(st: GraphState, initContext: Dict, sort: bool, less: (Val, Val) -> bool)
    ensures Updated(st, initContext, sort, less).0 == Failure(LenaRuntimeError) <==> !ScalesAgree(st)
    ensures !ScalesAgree(st) ==> Updated(st, initContext, sort, less).1 == st
  {
  }

  /** Updating again without filling changes nothing. */
  lemma UpdateTwice(st: GraphState, initContext: Dict, sort: bool, less: (Val, Val) -> bool)
    requires StrictTotal(less)
    requires Updated(st, initContext, sort, less).0.Success?
    ensures var st2 := Updated(st, initContext, sort, less).1;
            Updated(st2, initContext, sort, less) == (Success(()), st2)
  {
    var p1 := if sort then SortBy(st.points, less) else st.points;
    assert sort ==> SortBy(p1, less) == p1 by {
      SortIdempotent(st.points, less);
    }
    SameUpdate(st, initContext, sort, less);
  }

  lemma SameUpdate(st: GraphState, initContext: Dict, sort: bool, less: (Val, Val) -> bool)
    requires Updated(st, initContext, sort, less).0.Success?
    requires var p1 := Updated(st, initContext, sort, less).1.points;
             sort ==> SortBy(p1, less) == p1
    ensures var st2 := Updated(st, initContext, sort, less).1;
            Updated(st2, initContext, sort, less) == (Success(()), st2)
  {
  }

  /** `Graph(points, context, scale, sort)`: the points filled, the last
      context, the scale and, after an update, the output context and
      the dimension of the coordinates. The order of points is a
      parameter. */
  class DeprecatedGraph {
    var points: seq<Val>
    var curContext: Dict
    var scale: Val
    const initContext: Dict
    const sort: bool
    const less: (Val, Val) -> bool
    var context: Dict
    var dim: Option<nat>

    function State(): GraphState
      reads this
    {
      GraphState(points, curContext, scale, context, dim)
    }

    /** The attributes set before the first update. */
    constructor Init(points: seq<Val>, context: Dict, scale: Val, sort: bool, less: (Val, Val) -> bool)
      ensures State() == GraphState(points, context, scale, map[], None)
      ensures initContext == map["scale" := scale] && this.sort == sort && this.less == less
    {
      this.points := points;
      curContext := context;
      this.scale := scale;
      initContext := map["scale" := scale];
      this.sort := sort;
      this.less := less;
      this.context := map[];
      dim := None;
    }

    /** `fill(value)`: the data part is appended to the points, and the
        context becomes the current one. */
    method Fill(value: Val)
      modifies this
      ensures State() == old(State()).(points := old(points) + [GetData(value)], curContext := GetContext(value))
    {
      var (point, ctx) := GetDataContext(value);
      points := points + [point];
      curContext := ctx;
    }

    /** `reset()`: no points and an empty current context. */
    method Reset()
      modifies this
      ensures State() == old(State()).(points := [], curContext := map[])
    {
      points := [];
      curContext := map[];
    }

    /** `_update()`, as `Updated` describes it. */
    method Update() returns (r: Result<()>)
      modifies this
      ensures (r, State()) == Updated(old(State()), initContext, sort, less)
    {
      var cs := ContextScale(curContext);
      if cs.Some? {
        if scale != VNone && !PyEq(scale, cs.value) {
          return Failure(LenaRuntimeError);
        }
        scale := cs.value;
      }
      if sort {
        points := SortBy(points, less);
      }
      context := curContext + initContext + map["scale" := scale];
      if |points| > 0 {
        var d := CommonDim(points);
        if d.Failure? {
          return Failure(d.error);
        }
        dim := Some(d.value);
        context := context["dim" := VInt(d.value)];
      }
      return Success(());
    }
  }

  /** The check of `_update` that all coordinates have the dimension of
      the first. */
  method CommonDim(points: seq<Val>) returns (r: Result<nat>)
    requires |points| > 0
    ensures r == PointsDim(points)
  {
    var d := CoordDim(points[0]);
    if d.Failure? {
      return Failure(d.error);
    }
    var k := 0;
    while k < |points|
      invariant 0 <= k <= |points|
      invariant CheckDims(points[..k], d.value).Success?
    {
      var dk := CoordDim(points[k]);
      assert points[..k + 1][..k] == points[..k];
      if dk != d {
        CheckDimsPrefix(points, d.value, k + 1);
        return if dk.Failure? then Failure(dk.error) else Failure(LenaValueError);
      }
      k := k + 1;
    }
    assert points[..k] == points;
    return d;
  }

  /** A failure among the first points is the failure of all of them. */
  lemma {:induction false} CheckDimsPrefix(points: seq<Val>, dim: nat, k: nat)
    requires k <= |points| && CheckDims(points[..k], dim).Failure?
    ensures CheckDims(points, dim) == CheckDims(points[..k], dim)
    decreases |points| - k
  {
    if k < |points| {
      assert points[..k + 1][..k] == points[..k];
      CheckDimsPrefix(points, dim, k + 1);
    } else {
      assert points[..k] == points;
    }
  }

  /** `Graph(points, context, scale, sort)`: a context that is neither
      absent nor a dictionary is a LenaTypeError; otherwise the graph is
      created and updated. */
  method NewDeprecatedGraph(points: seq<Val>, context: Val, scale: Val, sort: bool, less: (Val, Val) -> bool)
    returns (r: Result<DeprecatedGraph>)
    ensures !(context == VNone || context.VDict?) ==> r == Failure(LenaTypeError)
    ensures context == VNone || context.VDict? ==>
              var ctx := if context == VNone then map[] else context.m;
              var (u, st) := Updated(GraphState(points, ctx, scale, map[], None), map["scale" := scale], sort, less);
              && (r.Success? <==> u.Success?)
              && (r.Failure? ==> r == Failure(u.error))
              && (r.Success? ==> fresh(r.value) && r.value.State() == st && r.value.sort == sort && r.value.less == less)
  {
    var ctx: Dict;
    if context == VNone {
      ctx := map[];
    } else if context.VDict? {
      ctx := context.m;
    } else {
      return Failure(LenaTypeError);
    }
    var g := new DeprecatedGraph.Init(points, ctx, scale, sort, less);
    var u := g.Update();
    if u.Failure? {
      return Failure(u.error);
    }
    return Success(g);
  }
}
