// `Histogram` (lena/structures/histogram.py): a multidimensional
// histogram whose nested bins are filled in place.

module Histograms {
  import opened Wrappers
  import opened Values
  import opened FlowFunctions
  import opened HistFunctions

  // ------------------------------------------------------------------
  // Paths into nested bins

  /** A path of in-range indices through nested bins. */
  predicate ValidPath<T>(m: Mesh<T>, path: seq<int>)
    decreases |path|
  {
    |path| == 0 || (m.Cells? && 0 <= path[0] < |m.items| && ValidPath(m.items[path[0]], path[1..]))
  }

  /** The sub-bins a valid path leads to. */
  function MeshAt<T>(m: Mesh<T>, path: seq<int>): Mesh<T>
    requires ValidPath(m, path)
    decreases |path|
  {
    if |path| == 0 then m else MeshAt(m.items[path[0]], path[1..])
  }

  /** The bins with the sub-bins at *path* replaced by *x*: what an
      assignment through a chain of subscripts does to the nested lists. */
  function Replace<T>(m: Mesh<T>, path: seq<int>, x: Mesh<T>): (r: Mesh<T>)
    requires ValidPath(m, path)
    ensures |path| > 0 ==> r.Cells? && |r.items| == |m.items|
    decreases |path|
  {
    if |path| == 0 then x
    else Cells(m.items[path[0] := Replace(m.items[path[0]], path[1..], x)])
  }

  /** Putting back what is there changes nothing. */
  lemma {:induction false} ReplaceSame<T>(m: Mesh<T>, path: seq<int>)
    requires ValidPath(m, path)
    ensures Replace(m, path, MeshAt(m, path)) == m
    decreases |path|
  {
    if |path| > 0 {
      ReplaceSame(m.items[path[0]], path[1..]);
      assert m.items[path[0] := m.items[path[0]]] == m.items;
    }
  }

  /** A path one step longer: replacing below it is replacing one item of
      the sub-bins the shorter path leads to. */
  lemma {:induction false} ExtendPath<T>(m: Mesh<T>, path: seq<int>, k: int, x: Mesh<T>)
    requires ValidPath(m, path) && MeshAt(m, path).Cells? && 0 <= k < |MeshAt(m, path).items|
    ensures ValidPath(m, path + [k]) && MeshAt(m, path + [k]) == MeshAt(m, path).items[k]
    ensures Replace(m, path + [k], x) == Replace(m, path, Cells(MeshAt(m, path).items[k := x]))
    decreases |path|
  {
    if |path| == 0 {
      assert [k][1..] == [];
      assert path + [k] == [k];
    } else {
      assert (path + [k])[0] == path[0] && (path + [k])[1..] == path[1..] + [k];
      ExtendPath(m.items[path[0]], path[1..], k, x);
    }
  }

  /** The replaced sub-bins are found where they were put. */
  lemma {:induction false} ReplaceThenAt<T>(m: Mesh<T>, path: seq<int>, x: Mesh<T>)
    requires ValidPath(m, path)
    ensures ValidPath(Replace(m, path, x), path) && MeshAt(Replace(m, path, x), path) == x
    decreases |path|
  {
    if |path| > 0 {
      ReplaceThenAt(m.items[path[0]], path[1..], x);
    }
  }

  /** Any other path of the same length leads where it led before. */
  lemma {:induction false} ReplaceElsewhere<T>(m: Mesh<T>, path: seq<int>, x: Mesh<T>, other: seq<int>)
    requires ValidPath(m, path) && ValidPath(m, other) && |other| == |path| && other != path
    ensures ValidPath(Replace(m, path, x), other) && MeshAt(Replace(m, path, x), other) == MeshAt(m, other)
    decreases |path|
  {
    if other[0] == path[0] {
      assert other[1..] != path[1..] by {
        assert other == [other[0]] + other[1..] && path == [path[0]] + path[1..];
      }
      ReplaceElsewhere(m.items[path[0]], path[1..], x, other[1..]);
    }
  }

  /** Replacing one cell of bins of a given shape by a cell keeps the
      shape. */
  lemma {:induction false} ReplaceKeepsShape<T>(m: Mesh<T>, path: seq<int>, x: Mesh<T>, sizes: seq<nat>)
    requires HasShape(m, sizes) && ValidPath(m, path) && |path| == |sizes| && x.Cell?
    ensures HasShape(Replace(m, path, x), sizes)
    decreases |path|
  {
    if |path| > 0 {
      ReplaceKeepsShape(m.items[path[0]], path[1..], x, sizes[1..]);
      var r := Replace(m, path, x);
      forall k | 0 <= k < |r.items|
        ensures HasShape(r.items[k], sizes[1..])
      {
        if k != path[0] {
          assert r.items[k] == m.items[k];
        }
      }
    }
  }

  /** Every entry of an index inside the bin counts of its axis. */
  predicate InRange(index: seq<int>, sizes: seq<nat>)
    requires |index| == |sizes|
  {
    forall c :: 0 <= c < |index| ==> 0 <= index[c] < sizes[c]
  }

  /** On bins of a known shape, an index with one entry per axis that is
      in range is a valid path to a cell. */
  lemma {:induction false} InRangePath<T>(m: Mesh<T>, index: seq<int>, sizes: seq<nat>)
    requires HasShape(m, sizes) && |index| == |sizes| && InRange(index, sizes)
    ensures ValidPath(m, index) && MeshAt(m, index).Cell?
    decreases |index|
  {
    if |index| > 0 {
      InRangePath(m.items[index[0]], index[1..], sizes[1..]);
    }
  }

  // ------------------------------------------------------------------
  // Filling

  /** The walk of `Histogram.fill` from *m* along *index*: a negative entry
      or one past the end stops the walk and leaves the bins as they are,
      subscripting a cell raises TypeError, and the cell at the end has
      *w* added to it (TypeError when it is not a cell). */
  function Walk(m: Mesh<real>, index: seq<int>, w: real): (r: Result<Mesh<real>>)
    requires |index| > 0
    ensures r.Success? ==> r.value.Cells? == m.Cells? && (m.Cells? ==> |r.value.items| == |m.items|)
    ensures r.Failure? ==> r.error == PyTypeError
    decreases |index|
  {
    var k := index[0];
    if k < 0 then Success(m)
    else if m.Cell? then Failure(PyTypeError)
    else if k >= |m.items| then Success(m)
    else if |index| == 1 then
      if m.items[k].Cell? then Success(Cells(m.items[k := Cell(m.items[k].v + w)])) else Failure(PyTypeError)
    else
      var sub :- Walk(m.items[k], index[1..], w);
      Success(Cells(m.items[k := sub]))
  }

  /** On bins of a known shape, an index with one entry per axis leaves
      the bins unchanged when any entry is out of range, and otherwise adds
      *w* to the one cell it indexes. */
  lemma {:induction false} WalkShape(m: Mesh<real>, index: seq<int>, sizes: seq<nat>, w: real)
    requires HasShape(m, sizes) && |index| == |sizes| > 0
    ensures !InRange(index, sizes) ==> Walk(m, index, w) == Success(m)
    ensures InRange(index, sizes) ==>
              ValidPath(m, index) && MeshAt(m, index).Cell?
              && Walk(m, index, w) == Success(Replace(m, index, Cell(MeshAt(m, index).v + w)))
    decreases |index|
  {
    var k := index[0];
    if 0 <= k < |m.items| && |index| > 1 {
      WalkShape(m.items[k], index[1..], sizes[1..], w);
      if !InRange(index, sizes) {
        assert !InRange(index[1..], sizes[1..]);
        assert m.items[k := m.items[k]] == m.items;
      }
    }
  }

  /** The bins after `fill`, as the walk leaves them; the walk only
      starts from an index with at least one entry (IndexError
      otherwise). */
  function WalkFrom(m: Mesh<real>, index: seq<int>, w: real): (r: Result<Mesh<real>>)
    ensures |index| == 0 ==> r == Failure(PyIndexError)
    ensures |index| > 0 ==> r == Walk(m, index, w)
  {
    if |index| == 0 then Failure(PyIndexError) else Walk(m, index, w)
  }

  /** `fill(value, weight)` on the bins: the data is looked up on the
      edges, and the bins are walked along the index found. */
  function FillBins(m: Mesh<real>, edges: Edges, data: Val, w: real): (r: Result<Mesh<real>>)
    requires SortedEdges(edges)
    ensures BinOnValue(data, edges).Failure? ==> r == Failure(BinOnValue(data, edges).error)
    ensures BinOnValue(data, edges).Success? ==> r == WalkFrom(m, BinOnValue(data, edges).value, w)
  {
    var index :- BinOnValue(data, edges);
    WalkFrom(m, index, w)
  }

  /** The walk result lifted back from the sub-bins at *path* to the whole
      bins. */
  function Lift(m: Mesh<real>, path: seq<int>, r: Result<Mesh<real>>): Result<Mesh<real>>
    requires ValidPath(m, path)
  {
    if r.Failure? then Failure(r.error) else Success(Replace(m, path, r.value))
  }

  /** Where the walk stops early, the whole bins are left as they are. */
  lemma LiftSame(m: Mesh<real>, path: seq<int>)
    requires ValidPath(m, path)
    ensures Lift(m, path, Success(MeshAt(m, path))) == Success(m)
  {
    ReplaceSame(m, path);
  }

  /** One step of the walk down from the sub-bins at *path*. */
  lemma LiftStep(m: Mesh<real>, path: seq<int>, index: seq<int>, w: real)
    requires ValidPath(m, path) && |index| > 1
    requires MeshAt(m, path).Cells? && 0 <= index[0] < |MeshAt(m, path).items|
    ensures ValidPath(m, path + [index[0]]) && MeshAt(m, path + [index[0]]) == MeshAt(m, path).items[index[0]]
    ensures Lift(m, path, Walk(MeshAt(m, path), index, w))
            == Lift(m, path + [index[0]], Walk(MeshAt(m, path).items[index[0]], index[1..], w))
  {
    var sub := MeshAt(m, path);
    var k := index[0];
    var below := Walk(sub.items[k], index[1..], w);
    ExtendPath(m, path, k, sub.items[k]);
    if below.Success? {
      ExtendPath(m, path, k, below.value);
    }
  }

  /** The loop of `Histogram.fill`: *subarr* descends the nested bins
      along all but the last entry of the index, stopping at a negative
      entry or one past the end, and the last entry's cell gets *w*
      added; the result is the whole bins after that update. */
  method WalkBins(m: Mesh<real>, index: seq<int>, w: real) returns (r: Result<Mesh<real>>)
    requires |index| > 0
    ensures r == Walk(m, index, w)
  {
    var subarr := m;
    var i := 0;
    while i < |index| - 1
      invariant 0 <= i <= |index| - 1
      invariant ValidPath(m, index[..i]) && subarr == MeshAt(m, index[..i])
      invariant Walk(m, index, w) == Lift(m, index[..i], Walk(subarr, index[i..], w))
    {
      var k := index[i];
      if k < 0 {
        LiftSame(m, index[..i]);
        return Success(m);
      }
      if subarr.Cell? {
        return Failure(PyTypeError);
      }
      if k >= |subarr.items| {
        LiftSame(m, index[..i]);
        return Success(m);
      }
      LiftStep(m, index[..i], index[i..], w);
      assert index[..i + 1] == index[..i] + [k] && index[i..][1..] == index[i + 1..];
      subarr := subarr.items[k];
      i := i + 1;
    }
    var k := index[i];
    assert index[i..] == [k];
    if k < 0 {
      LiftSame(m, index[..i]);
      return Success(m);
    }
    if subarr.Cell? {
      return Failure(PyTypeError);
    }
    if k >= |subarr.items| {
      LiftSame(m, index[..i]);
      return Success(m);
    }
    if subarr.items[k].Cells? {
      return Failure(PyTypeError);
    }
    return Success(Replace(m, index[..i], Cells(subarr.items[k := Cell(subarr.items[k].v + w)])));
  }

  // ------------------------------------------------------------------
  // Construction

  /** What a histogram derives from its edges. */
  datatype Layout = Layout(dim: nat, ranges: seq<Val>, nbins: seq<int>)

  function AxisVal(axis: seq<real>): Val
  {
    VList(seq(|axis|, k requires 0 <= k < |axis| => VReal(axis[k])))
  }

  /** `(axis[0], axis[-1])`. */
  function RangeOf(axis: seq<real>): Val
    requires |axis| > 0
  {
    VTuple([VReal(axis[0]), VReal(axis[|axis| - 1])])
  }

  /** `Histogram.__init__` as written: `dim` is the number of axes when
      the first edge is a list and 1 otherwise, and the ranges and bin
      counts are taken per axis only when `dim > 1`, so a single nested
      axis has its whole list as both ends of its range and one bin
      fewer than it has axes. */
  function LayoutAsWritten(edges: Edges): (r: Layout)
    requires ValidEdges(edges)
    ensures edges.Flat? ==> r == Layout(1, [RangeOf(edges.xs)], [|edges.xs| - 1])
    ensures edges.Axes? && |edges.axes| == 1 ==>
              r == Layout(1, [VTuple([AxisVal(edges.axes[0]), AxisVal(edges.axes[0])])], [0])
  {
    match edges
    case Flat(xs) => Layout(1, [RangeOf(xs)], [|xs| - 1])
    case Axes(axes) =>
      if |axes| > 1 then
        Layout(|axes|, seq(|axes|, k requires 0 <= k < |axes| => RangeOf(axes[k])),
               seq(|axes|, k requires 0 <= k < |axes| => |axes[k]| - 1))
      else
        Layout(1, [VTuple([AxisVal(axes[0]), AxisVal(axes[0])])], [|axes| - 1])
  }

  /** The layout with the ranges and bin counts taken per axis whenever
      the edges are nested.
      This is the corrected behaviour; the program as written is `LayoutAsWritten`. */
  function LayoutOf(edges: Edges): (r: Layout)
    requires ValidEdges(edges)
    ensures r.dim == Dim(edges) && |r.ranges| == |r.nbins| == Dim(edges)
    ensures forall k :: 0 <= k < Dim(edges) ==>
              r.nbins[k] == Sizes(Unify1Md(Cell(0.0), edges).1)[k]
              && r.ranges[k] == RangeOf(Unify1Md(Cell(0.0), edges).1[k])
  {
    match edges
    case Flat(xs) => Layout(1, [RangeOf(xs)], [|xs| - 1])
    case Axes(axes) =>
      Layout(|axes|, seq(|axes|, k requires 0 <= k < |axes| => RangeOf(axes[k])),
             seq(|axes|, k requires 0 <= k < |axes| => |axes[k]| - 1))
  }

  /** The state `Histogram.__init__` leaves. */
  datatype HistState = HistState(bins: Mesh<real>, layout: Layout)

  /** The provided bins checked as written: against `len(edges) - 1` when
      `dim` is 1, otherwise against the first axis; bins that are a single
      number have no length (TypeError). */
  function CheckBinsAsWritten(edges: Edges, bins: Mesh<real>): Result<()>
    requires ValidEdges(edges)
  {
    if bins.Cell? then Failure(PyTypeError)
    else
      var expected := match edges
        case Flat(xs) => |xs| - 1
        case Axes(axes) => if LayoutAsWritten(edges).dim == 1 then |axes| - 1 else |axes[0]| - 1;
      if |bins.items| != expected then Failure(LenaValueError) else Success(())
  }

  /** `Histogram(edges, bins, initial_value)` as written. */
  function InitAsWritten(edges: Edges, bins: Option<Mesh<real>>, initial: real): (r: Result<HistState>)
    ensures !ValidEdges(edges) ==> r == Failure(LenaValueError)
    ensures ValidEdges(edges) && bins.None? ==>
              r == Success(HistState(InitBins(edges, initial).value, LayoutAsWritten(edges)))
  {
    var _ :- CheckEdgesIncreasing(edges);
    var layout := LayoutAsWritten(edges);
    match bins
    case None => Success(HistState(InitBins(edges, initial).value, layout))
    case Some(b) =>
      var _ :- CheckBinsAsWritten(edges, b);
      Success(HistState(b, layout))
  }

  /** The number of top-level bins the first axis has. */
  function FirstBins(edges: Edges): nat
    requires ValidEdges(edges)
  {
    Bins(Unify1Md(Cell(0.0), edges).1[0])
  }

  /** `Histogram(edges, bins, initial_value)`: edges that are not
      increasing raise LenaValueError; without bins, bins of the shape of
      the edges filled with the initial value are made; provided bins
      must have as many top-level bins as the first axis.
      This is the corrected behaviour; the program as written is `InitAsWritten`. */
  function Init(edges: Edges, bins: Option<Mesh<real>>, initial: real): (r: Result<HistState>)
    ensures r.Success? ==> ValidEdges(edges) && r.value.layout == LayoutOf(edges)
    ensures !ValidEdges(edges) ==> r == Failure(LenaValueError)
    ensures ValidEdges(edges) && bins.None? ==>
              r.Success? && HasShape(r.value.bins, Sizes(Unify1Md(r.value.bins, edges).1))
              && Uniform(r.value.bins, initial)
    ensures ValidEdges(edges) && bins.Some? ==>
              (r.Success? <==> bins.value.Cells? && |bins.value.items| == FirstBins(edges))
              && (r.Success? ==> r.value.bins == bins.value)
  {
    var _ :- CheckEdgesIncreasing(edges);
    var layout := LayoutOf(edges);
    match bins
    case None => Success(HistState(InitBins(edges, initial).value, layout))
    case Some(b) =>
      if b.Cell? then Failure(PyTypeError)
      else if |b.items| != FirstBins(edges) then Failure(LenaValueError)
      else Success(HistState(b, layout))
  }

  /** A histogram accepts the bins it makes for itself. */
  lemma InitAcceptsOwnBins(edges: Edges, initial: real)
    requires ValidEdges(edges)
    ensures Init(edges, Some(Init(edges, None, initial).value.bins), initial).Success?
  {
    var b := Init(edges, None, initial).value.bins;
    var axes := Unify1Md(b, edges).1;
    assert HasShape(b, Sizes(axes));
    assert Sizes(axes)[0] == Bins(axes[0]);
  }

  /** With one nested axis, `Histogram.__init__` as written rejects the
      bins its own `init_bins` makes, and reports one bin fewer than the
      axis has and no proper range; the corrected layout has them. */
  lemma SingleNestedAxisExample()
    ensures var e := Axes([[0.0, 1.0, 2.0]]);
            var own := InitAsWritten(e, None, 0.0);
            own.Success? && own.value.bins == Cells([Cell(0.0), Cell(0.0)])
            && own.value.layout.nbins == [0]
            && InitAsWritten(e, Some(own.value.bins), 0.0) == Failure(LenaValueError)
            && Init(e, Some(own.value.bins), 0.0).Success?
            && LayoutOf(e) == Layout(1, [VTuple([VReal(0.0), VReal(2.0)])], [2])
  {
    var e := Axes([[0.0, 1.0, 2.0]]);
    assert ValidAxis([0.0, 1.0, 2.0]);
    assert ValidEdges(e);
    var b := InitBins(e, 0.0).value;
    assert b == InitAxes([[0.0, 1.0, 2.0]], 0.0);
    assert b == Cells(Repeat(Cell(0.0), 2));
    assert Repeat(Cell(0.0), 2) == [Cell(0.0), Cell(0.0)];
  }

  // ------------------------------------------------------------------
  // Context and scale

  /** `make_hist_context(hist, context)`: the context with its
      "histogram" key set to the dimension, ranges and bin counts; every
      other key is kept. */
  function HistContext(layout: Layout, context: Dict): (r: Dict)
    ensures "histogram" in r && r["histogram"].VDict?
    ensures var h := r["histogram"].m;
            h.Keys == {"dim", "ranges", "nbins"} && h["dim"] == VInt(layout.dim)
            && h["ranges"] == VList(layout.ranges)
            && h["nbins"] == VList(seq(|layout.nbins|, k requires 0 <= k < |layout.nbins| => VInt(layout.nbins[k])))
    ensures forall key :: key in context && key != "histogram" ==> key in r && r[key] == context[key]
    ensures r.Keys == context.Keys + {"histogram"}
  {
    var nbins := seq(|layout.nbins|, k requires 0 <= k < |layout.nbins| => VInt(layout.nbins[k]));
    context["histogram" := VDict(map["dim" := VInt(layout.dim), "ranges" := VList(layout.ranges), "nbins" := VList(nbins)])]
  }

  /** `scale()`: the stored scale, or the integral of the bins when none
      is stored or a recomputation is asked for. */
  function ScaleOf(bins: Mesh<real>, edges: Edges, stored: Option<real>, recompute: bool): (r: Result<real>)
    ensures stored.Some? && !recompute ==> r == Success(stored.value)
    ensures stored.None? || recompute ==> r == IntegralOf(IterBins(bins), Unify1Md(bins, edges).1)
  {
    if stored.None? || recompute then IntegralOf(IterBins(bins), Unify1Md(bins, edges).1)
    else Success(stored.value)
  }

  /** Bins with every cell mapped by *f*; `md_map` on the bins. */
  function MapCells(f: real -> real, m: Mesh<real>): (r: Mesh<real>)
    ensures m.Cell? <==> r.Cell?
    ensures m.Cells? ==> |r.items| == |m.items|
    decreases m
  {
    match m
    case Cell(v) => Cell(f(v))
    case Cells(items) => Cells(seq(|items|, k requires 0 <= k < |items| => MapCells(f, items[k])))
  }

  /** The rescaled cell `binc * other / scale`. */
  function Rescaled(other: real, scale: real): real -> real
    requires scale != 0.0
  {
    binc => binc * other / scale
  }

  // ------------------------------------------------------------------
  // The histogram

  /** `Histogram`: edges and what derives from them are fixed; `fill`
      changes the bins and the current context, `compute` clears the
      context. Its layout is the corrected `LayoutOf`; the program as
      written is `LayoutAsWritten`. */
  class Histogram {
    const edges: Edges
    const layout: Layout
    var bins: Mesh<real>
    var scale: Option<real>
    var curContext: Dict

    ghost predicate Valid()
      reads this
    {
      ValidEdges(edges) && layout == LayoutOf(edges)
      && bins.Cells? && |bins.items| == FirstBins(edges)
    }

    constructor (edges: Edges, bins: Option<Mesh<real>>, initial: real)
      requires Init(edges, bins, initial).Success?
      ensures Valid()
      ensures this.edges == edges && layout == Init(edges, bins, initial).value.layout
      ensures this.bins == Init(edges, bins, initial).value.bins
      ensures scale == None && curContext == map[]
    {
      var s := Init(edges, bins, initial).value;
      if bins.None? {
        var axes := Unify1Md(s.bins, edges).1;
        assert Sizes(axes)[0] == Bins(axes[0]);
      }
      this.edges := edges;
      layout := s.layout;
      this.bins := s.bins;
      scale := None;
      curContext := map[];
    }

    /** `Histogram(edges, bins, initial_value)`, raising what `__init__`
        raises. */
    static method New(edges: Edges, bins: Option<Mesh<real>>, initial: real) returns (r: Result<Histogram>)
      ensures r.Failure? <==> Init(edges, bins, initial).Failure?
      ensures r.Failure? ==> r.error == Init(edges, bins, initial).error
      ensures r.Success? ==> fresh(r.value) && r.value.Valid() && r.value.edges == edges
                             && r.value.bins == Init(edges, bins, initial).value.bins
                             && r.value.scale == None && r.value.curContext == map[]
    {
      if Init(edges, bins, initial).Failure? {
        return Failure(Init(edges, bins, initial).error);
      }
      var h := new Histogram(edges, bins, initial);
      return Success(h);
    }

    /** `fill(value, weight)`: the current context becomes the value's;
        the data is looked up on the edges (errors propagate) and the
        nested bins are walked in place along the index found. */
    method Fill(value: Val, weight: real) returns (r: Result<()>)
      requires Valid()
      modifies this
      ensures Valid() && scale == old(scale)
      ensures curContext == GetContext(value)
      ensures var res := FillBins(old(bins), edges, GetData(value), weight);
              (r.Failure? <==> res.Failure?)
              && (r.Failure? ==> r.error == res.error && bins == old(bins))
              && (r.Success? ==> bins == res.value)
    {
      curContext := GetContext(value);
      var found := GetBinOnValue(GetData(value), edges);
      if found.Failure? {
        return Failure(found.error);
      }
      var index := found.value;
      if |index| == 0 {
        return Failure(PyIndexError);
      }
      var after := WalkBins(bins, index, weight);
      if after.Failure? {
        return Failure(after.error);
      }
      bins := after.value;
      return Success(());
    }

    /** `compute()`: yields this histogram with its context (the current
        context updated by `make_hist_context`), then clears the current
        context; the bins are unchanged. */
    method Compute() returns (context: Dict)
      requires Valid()
      modifies this
      ensures Valid() && bins == old(bins) && scale == old(scale)
      ensures context == HistContext(layout, old(curContext)) && curContext == map[]
    {
      context := HistContext(layout, curContext);
      curContext := map[];
    }

    /** `scale(recompute=...)`: the stored scale, or the integral of the
        bins; nothing is stored. */
    method Scale(recompute: bool) returns (r: Result<real>)
      requires Valid()
      ensures r == ScaleOf(bins, edges, scale, recompute)
    {
      if scale.None? || recompute {
        var unified := Unify1Md(bins, edges);
        r := Integral(unified.0, unified.1);
      } else {
        r := Success(scale.value);
      }
    }

    /** `scale(other)`: a histogram of scale zero cannot be rescaled
        (LenaValueError); otherwise a new histogram on the same edges with
        every bin multiplied by `other / scale` and its scale set to
        *other*; this one is unchanged. */
    method Rescale(other: real) returns (r: Result<Histogram>)
      requires Valid()
      ensures var s := ScaleOf(bins, edges, scale, false);
              (r.Failure? <==> s.Failure? || s.value == 0.0)
              && (s.Failure? ==> r == Failure(s.error))
              && (s.Success? && s.value == 0.0 ==> r == Failure(LenaValueError))
      ensures r.Success? ==> fresh(r.value) && r.value.Valid() && r.value.edges == edges
                             && r.value.bins == MapCells(Rescaled(other, ScaleOf(bins, edges, scale, false).value), bins)
                             && r.value.scale == Some(other) && r.value.curContext == map[]
    {
      var s := Scale(false);
      if s.Failure? {
        return Failure(s.error);
      }
      if s.value == 0.0 {
        return Failure(LenaValueError);
      }
      var mapped := MapCells(Rescaled(other, s.value), bins);
      var h := new Histogram(edges, Some(mapped), 0.0);
      h.scale := Some(other);
      return Success(h);
    }
  }

  /** Fill inside the edges adds the weight to exactly one cell of bins of
      the histogram's shape and leaves every other cell as it was; an
      index outside the bins leaves the bins unchanged. */
  lemma FillOneCell(m: Mesh<real>, axes: seq<seq<real>>, index: seq<int>, w: real)
    requires |axes| > 0 && HasShape(m, Sizes(axes)) && |index| == |axes|
    ensures !InRange(index, Sizes(axes)) ==> Walk(m, index, w) == Success(m)
    ensures InRange(index, Sizes(axes)) ==>
              var after := Walk(m, index, w);
              after.Success? && HasShape(after.value, Sizes(axes))
              && ValidPath(m, index) && ValidPath(after.value, index)
              && MeshAt(m, index).Cell? && MeshAt(after.value, index) == Cell(MeshAt(m, index).v + w)
              && forall other :: |other| == |index| && other != index && InRange(other, Sizes(axes)) ==>
                   ValidPath(m, other) && ValidPath(after.value, other)
                   && MeshAt(after.value, other) == MeshAt(m, other)
  {
    var sizes := Sizes(axes);
    WalkShape(m, index, sizes, w);
    if InRange(index, sizes) {
      var x := Cell(MeshAt(m, index).v + w);
      ReplaceThenAt(m, index, x);
      ReplaceKeepsShape(m, index, x, sizes);
      forall other | |other| == |index| && other != index && InRange(other, sizes)
        ensures ValidPath(m, other) && ValidPath(Replace(m, index, x), other)
                && MeshAt(Replace(m, index, x), other) == MeshAt(m, other)
      {
        InRangePath(m, other, sizes);
        ReplaceElsewhere(m, index, x, other);
      }
    }
  }

  /** A coordinate inside the edges of its axis: from the first edge
      included to the last one excluded. */
  predicate Inside(x: Val, axis: seq<real>)
    requires |axis| > 0
  {
    Number(x).Some? && axis[0] <= Number(x).value < axis[|axis| - 1]
  }

  /** A point of numbers finds an index whose every entry is in range
      exactly when every coordinate is inside its axis. */
  lemma PointInRange(items: seq<Val>, axes: seq<seq<real>>)
    requires |items| == |axes| && forall k :: 0 <= k < |axes| ==> |axes[k]| > 1 && Sorted(axes[k])
    requires forall c :: 0 <= c < |items| ==> Number(items[c]).Some?
    ensures BinsOnAxes(items, axes).Success?
    ensures InRange(BinsOnAxes(items, axes).value, Sizes(axes))
            <==> forall c :: 0 <= c < |axes| ==> Inside(items[c], axes[c])
  {
    var index := BinsOnAxes(items, axes).value;
    forall c | 0 <= c < |axes|
      ensures 0 <= index[c] < Sizes(axes)[c] <==> Inside(items[c], axes[c])
    {
      BinInside(Number(items[c]).value, axes[c]);
    }
  }

  /** `fill` of a point of numbers into a histogram with bins of its own
      shape: a point outside the edges on any axis leaves the bins as they
      are, a point inside adds the weight to its bin only. */
  lemma FillPoint(m: Mesh<real>, axes: seq<seq<real>>, point: seq<Val>, w: real)
    requires ValidEdges(Axes(axes)) && HasShape(m, Sizes(axes)) && |point| == |axes|
    requires forall c :: 0 <= c < |point| ==> Number(point[c]).Some?
    ensures var index := BinOnValue(VList(point), Axes(axes));
            index.Success? && |index.value| == |axes|
            && FillBins(m, Axes(axes), VList(point), w) == Walk(m, index.value, w)
            && ((exists c :: 0 <= c < |axes| && !Inside(point[c], axes[c])) ==> Walk(m, index.value, w) == Success(m))
            && ((forall c :: 0 <= c < |axes| ==> Inside(point[c], axes[c])) ==>
                  ValidPath(m, index.value) && MeshAt(m, index.value).Cell?
                  && Walk(m, index.value, w) == Success(Replace(m, index.value, Cell(MeshAt(m, index.value).v + w))))
  {
    PointInRange(point, axes);
    var index := BinsOnAxes(point, axes).value;
    WalkShape(m, index, Sizes(axes), w);
  }

  /** The point [0, 1] falls in bin (0, 1) of two axes [0, 1, 2]. */
  lemma ExampleBin()
    ensures SortedEdges(Axes([[0.0, 1.0, 2.0], [0.0, 1.0, 2.0]]))
    ensures BinOnValue(VList([VInt(0), VInt(1)]), Axes([[0.0, 1.0, 2.0], [0.0, 1.0, 2.0]])) == Success([0, 1])
  {
    var axis := [0.0, 1.0, 2.0];
    assert Sorted(axis);
    assert BinOnValue1d(0.0, axis) == 0 && BinOnValue1d(1.0, axis) == 1;
    assert BinOnValueAxis(VInt(0), axis) == Success(0);
    assert BinOnValueAxis(VInt(1), axis) == Success(1);
    var r := BinsOnAxes([VInt(0), VInt(1)], [axis, axis]);
    assert r.Success? && |r.value| == 2 && r.value[0] == 0 && r.value[1] == 1;
    assert r.value == [0, 1];
  }

  /** The empty 2 x 2 bins of that histogram. */
  lemma ExampleInit()
    ensures ValidEdges(Axes([[0.0, 1.0, 2.0], [0.0, 1.0, 2.0]]))
    ensures Init(Axes([[0.0, 1.0, 2.0], [0.0, 1.0, 2.0]]), None, 0.0).value.bins
            == Cells([Cells([Cell(0.0), Cell(0.0)]), Cells([Cell(0.0), Cell(0.0)])])
  {
    var axis := [0.0, 1.0, 2.0];
    assert ValidAxis(axis);
    var zero := Cells([Cell(0.0), Cell(0.0)]);
    assert Repeat(Cell(0.0), 2) == [Cell(0.0), Cell(0.0)];
    assert Repeat(zero, 2) == [zero, zero];
    assert InitAxes([axis], 0.0) == zero;
    assert [axis, axis][1..] == [axis];
  }

  /** Walking bin (0, 1) of the empty 2 x 2 bins adds the weight there. */
  lemma ExampleWalk()
    ensures Walk(Cells([Cells([Cell(0.0), Cell(0.0)]), Cells([Cell(0.0), Cell(0.0)])]), [0, 1], 1.0)
            == Success(Cells([Cells([Cell(0.0), Cell(1.0)]), Cells([Cell(0.0), Cell(0.0)])]))
  {
    var zero := Cells([Cell(0.0), Cell(0.0)]);
    assert [0, 1][1..] == [1];
    assert [Cell(0.0), Cell(0.0)][1 := Cell(0.0 + 1.0)] == [Cell(0.0), Cell(1.0)];
    assert Walk(zero, [1], 1.0) == Success(Cells([Cell(0.0), Cell(1.0)]));
    assert [zero, zero][0 := Cells([Cell(0.0), Cell(1.0)])] == [Cells([Cell(0.0), Cell(1.0)]), zero];
  }

  /** The doctest of `Histogram`: filling [0, 1] into a two-dimensional
      histogram of 2 x 2 bins adds one to bin (0, 1). */
  method FillExample() returns (bins: Mesh<real>)
    ensures bins == Cells([Cells([Cell(0.0), Cell(1.0)]), Cells([Cell(0.0), Cell(0.0)])])
  {
    var e := Axes([[0.0, 1.0, 2.0], [0.0, 1.0, 2.0]]);
    ExampleInit();
    ExampleBin();
    ExampleWalk();
    var h := new Histogram(e, None, 0.0);
    var point := VList([VInt(0), VInt(1)]);
    assert GetData(point) == point;
    var r := h.Fill(point, 1.0);
    bins := h.bins;
  }
}
