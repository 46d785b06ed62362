// Histogram edges and nested bins (lena/structures/hist_functions.py).

module HistFunctions {
  import opened Wrappers
  import opened Values

  /** Histogram edges: one list of numbers for a one-dimensional
      histogram, or one list per axis. */
  datatype Edges = Flat(xs: seq<real>) | Axes(axes: seq<seq<real>>)

  /** Nested bins: a list of sub-bins, or a cell with its content. */
  datatype Mesh<T> = Cell(v: T) | Cells(items: seq<Mesh<T>>)

  /** A bin index: a bare number, or a list or tuple of numbers. */
  datatype IndexArg = Scalar(i: int) | Indices(s: seq<int>)

  /** `s[i]`, with Python's negative indices. */
  function At<T>(s: seq<T>, i: int): (r: Option<T>)
    ensures r.Some? <==> -|s| <= i < |s|
    ensures 0 <= i < |s| ==> r == Some(s[i])
  {
    if 0 <= i < |s| then Some(s[i])
    else if -|s| <= i < 0 then Some(s[|s| + i])
    else None
  }

  // ------------------------------------------------------------------
  // Edges

  /** Strictly increasing. */
  predicate Sorted(xs: seq<real>)
  {
    forall i, j :: 0 <= i < j < |xs| ==> xs[i] < xs[j]
  }

  /** `all(a < b for a, b in zip(arr, arr[1:]))`. */
  predicate PairsIncreasing(xs: seq<real>)
    decreases |xs|
  {
    |xs| <= 1 || (xs[0] < xs[1] && PairsIncreasing(xs[1..]))
  }

  /** Comparing neighbours is enough to know the whole list increases. */
  lemma {:induction false} PairsIncreasingSorted(xs: seq<real>)
    ensures PairsIncreasing(xs) <==> Sorted(xs)
    decreases |xs|
  {
    if |xs| > 1 {
      var tail := xs[1..];
      PairsIncreasingSorted(tail);
      if PairsIncreasing(xs) {
        forall i, j | 0 <= i < j < |xs|
          ensures xs[i] < xs[j]
        {
          if i == 0 {
            if j > 1 {
              assert tail[0] < tail[j - 1];
            }
          } else {
            assert tail[i - 1] < tail[j - 1];
          }
        }
      }
      if Sorted(xs) {
        assert xs[0] < xs[1];
        assert Sorted(tail) by {
          forall i, j | 0 <= i < j < |tail|
            ensures tail[i] < tail[j]
          {
            assert xs[i + 1] < xs[j + 1];
          }
        }
      }
    }
  }

  /** One axis a histogram can have: at least two strictly increasing
      edges. */
  predicate ValidAxis(a: seq<real>)
  {
    |a| > 1 && Sorted(a)
  }

  predicate ValidEdges(edges: Edges)
  {
    match edges
    case Flat(xs) => ValidAxis(xs)
    case Axes(axes) => |axes| > 0 && forall k :: 0 <= k < |axes| ==> ValidAxis(axes[k])
  }

  /** `_check_edges_increasing_1d`: LenaValueError for fewer than two
      edges or edges that do not strictly increase. */
  function CheckIncreasing1d(arr: seq<real>): (r: Result<()>)
    ensures r.Success? <==> ValidAxis(arr)
    ensures r.Failure? ==> r.error == LenaValueError
  {
    PairsIncreasingSorted(arr);
    if |arr| <= 1 then Failure(LenaValueError)
    else if !PairsIncreasing(arr) then Failure(LenaValueError)
    else Success(())
  }

  /** The loop over the axes of `check_edges_increasing`. */
  function CheckAxes(axes: seq<seq<real>>): (r: Result<()>)
    ensures r.Success? <==> forall k :: 0 <= k < |axes| ==> ValidAxis(axes[k])
    ensures r.Failure? ==> r.error == LenaValueError
  {
    if |axes| == 0 then Success(())
    else if |axes[0]| <= 1 then Failure(LenaValueError)
    else
      var _ :- CheckIncreasing1d(axes[0]);
      var r := CheckAxes(axes[1..]);
      assert forall k :: 1 <= k < |axes| ==> axes[k] == axes[1..][k - 1];
      r
  }

  /** `check_edges_increasing`: empty edges, an axis with fewer than two
      edges and an axis that does not strictly increase all raise
      LenaValueError. */
  function CheckEdgesIncreasing(edges: Edges): (r: Result<()>)
    ensures r.Success? <==> ValidEdges(edges)
    ensures r.Failure? ==> r.error == LenaValueError
  {
    match edges
    case Flat(xs) => CheckIncreasing1d(xs)
    case Axes(axes) => if |axes| == 0 then Failure(LenaValueError) else CheckAxes(axes)
  }

  /** The number of axes. */
  function Dim(edges: Edges): nat
  {
    match edges
    case Flat(_) => 1
    case Axes(axes) => |axes|
  }

  /** `unify_1_md`: one-dimensional edges are put in a list, others are
      kept; the bins are returned unchanged. */
  function Unify1Md<T>(bins: Mesh<T>, edges: Edges): (r: (Mesh<T>, seq<seq<real>>))
    ensures r.0 == bins && |r.1| == Dim(edges)
    ensures ValidEdges(edges) <==> |r.1| > 0 && forall k :: 0 <= k < |r.1| ==> ValidAxis(r.1[k])
    ensures forall k :: 0 <= k < |r.1| ==> r.1[k] == (if edges.Flat? then edges.xs else edges.axes[k])
  {
    match edges
    case Flat(xs) => assert [xs][0] == xs; (bins, [xs])
    case Axes(axes) => (bins, axes)
  }

  /** `len(arr) - 1` bins for an axis, as `range` counts it. */
  function Bins(axis: seq<real>): nat
  {
    if |axis| == 0 then 0 else |axis| - 1
  }

  // ------------------------------------------------------------------
  // Edges of one bin

  /** The edges of a bin: one pair in one dimension, a pair per axis
      otherwise. */
  datatype CellEdges = Bounds(lo: real, hi: real) | BoundsList(pairs: seq<(real, real)>)

  /** `(axis[i], axis[i + 1])`. */
  function BoundsOf(axis: seq<real>, i: int): (r: Result<(real, real)>)
    ensures 0 <= i < |axis| - 1 ==> r == Success((axis[i], axis[i + 1]))
    ensures r.Failure? ==> r.error == PyIndexError
  {
    var lo := At(axis, i);
    var hi := At(axis, i + 1);
    if lo.None? || hi.None? then Failure(PyIndexError) else Success((lo.value, hi.value))
  }

  /** The comprehension over `enumerate(index)`: the pair of each indexed
      axis, in order. */
  function BoundsAll(axes: seq<seq<real>>, index: seq<int>): (r: Result<seq<(real, real)>>)
    ensures r.Success? ==> |r.value| == |index| <= |axes|
    ensures r.Success? ==> forall c :: 0 <= c < |index| ==> BoundsOf(axes[c], index[c]) == Success(r.value[c])
    ensures (|index| <= |axes| && forall c :: 0 <= c < |index| ==> 0 <= index[c] < |axes[c]| - 1) ==> r.Success?
    ensures r.Failure? ==> r.error == PyIndexError
    decreases |index|
  {
    if |index| == 0 then Success([])
    else if |axes| == 0 then Failure(PyIndexError)
    else
      var first :- BoundsOf(axes[0], index[0]);
      assert forall c :: 1 <= c < |index| ==> index[1..][c - 1] == index[c];
      assert forall c :: 1 <= c < |axes| ==> axes[1..][c - 1] == axes[c];
      var rest :- BoundsAll(axes[1..], index[1..]);
      Success([first] + rest)
  }

  /** `get_bin_edges(index, edges)`: in one dimension the pair around the
      bin (the first entry of a list index), otherwise the pair of every
      indexed axis in order. A bin outside the edges raises IndexError;
      a bare number as a multidimensional index raises TypeError. */
  function GetBinEdges(index: IndexArg, edges: Edges): (r: Result<CellEdges>)
    ensures edges.Flat? && index.Scalar? && 0 <= index.i < |edges.xs| - 1
            ==> r == Success(Bounds(edges.xs[index.i], edges.xs[index.i + 1]))
    ensures edges.Flat? && index.Indices? && |index.s| > 0 && 0 <= index.s[0] < |edges.xs| - 1
            ==> r == Success(Bounds(edges.xs[index.s[0]], edges.xs[index.s[0] + 1]))
    ensures edges.Axes? && index.Indices? && |edges.axes| > 0 && |index.s| <= |edges.axes|
            && (forall c :: 0 <= c < |index.s| ==> 0 <= index.s[c] < |edges.axes[c]| - 1)
            ==> r.Success? && r.value.BoundsList? && |r.value.pairs| == |index.s|
                && forall c :: 0 <= c < |index.s| ==>
                     r.value.pairs[c] == (edges.axes[c][index.s[c]], edges.axes[c][index.s[c] + 1])
    ensures edges.Axes? && |edges.axes| > 0 && index.Scalar? ==> r == Failure(PyTypeError)
    ensures r.Failure? ==> r.error == PyIndexError || r.error == PyTypeError
  {
    match edges
    case Flat(xs) =>
      if |xs| == 0 then Failure(PyIndexError)
      else
        var i :- (match index
                  case Scalar(i) => Success(i)
                  case Indices(s) => if |s| == 0 then Failure(PyIndexError) else Success(s[0]));
        var (lo, hi) :- BoundsOf(xs, i);
        Success(Bounds(lo, hi))
    case Axes(axes) =>
      if |axes| == 0 then Failure(PyIndexError)
      else if index.Scalar? then Failure(PyTypeError)
      else
        var pairs :- BoundsAll(axes, index.s);
        Success(BoundsList(pairs))
  }

  /** Bins of valid edges have a lower edge below the upper one (a
      negative index wraps around and can give the pair reversed). */
  lemma BinEdgesIncrease(index: IndexArg, edges: Edges)
    requires ValidEdges(edges)
    requires index.Scalar? ==> index.i >= 0
    requires index.Indices? ==> forall c :: 0 <= c < |index.s| ==> index.s[c] >= 0
    requires GetBinEdges(index, edges).Success?
    ensures var e := GetBinEdges(index, edges).value;
            (e.Bounds? ==> e.lo < e.hi)
            && (e.BoundsList? ==> forall c :: 0 <= c < |e.pairs| ==> e.pairs[c].0 < e.pairs[c].1)
  {
    var e := GetBinEdges(index, edges).value;
    match edges
    case Flat(xs) =>
      var i := if index.Scalar? then index.i else index.s[0];
      assert BoundsOf(xs, i) == Success((e.lo, e.hi));
      assert e.lo == xs[i] && e.hi == xs[i + 1];
    case Axes(axes) =>
      assert BoundsAll(axes, index.s) == Success(e.pairs);
      forall c | 0 <= c < |e.pairs|
        ensures e.pairs[c].0 < e.pairs[c].1
      {
        var i := index.s[c];
        var axis := axes[c];
        assert BoundsOf(axis, i) == Success(e.pairs[c]);
        assert ValidAxis(axis);
      }
  }

  // ------------------------------------------------------------------
  // Bins on an index

  function IndexList(index: IndexArg): seq<int>
  {
    match index
    case Scalar(i) => [i]
    case Indices(s) => s
  }

  /** The bin at *index*: each entry selects a sub-bin, a negative entry
      counting from the end. An entry out of range raises LenaIndexError;
      a cell cannot be indexed further (TypeError). */
  function BinOnIndex<T>(index: seq<int>, bins: Mesh<T>): (r: Result<Mesh<T>>)
    ensures r.Failure? ==> r.error == LenaIndexError || r.error == PyTypeError
    ensures |index| > 0 && bins.Cell? ==> r == Failure(PyTypeError)
    decreases |index|
  {
    if |index| == 0 then Success(bins)
    else
      match bins
      case Cell(_) => Failure(PyTypeError)
      case Cells(items) =>
        match At(items, index[0])
        case None => Failure(LenaIndexError)
        case Some(sub) => BinOnIndex(index[1..], sub)
  }

  /** `get_bin_on_index(index, bins)`: a bare number is a one-entry index;
      the bins are descended one entry at a time. */
  method GetBinOnIndex<T>(index: IndexArg, bins: Mesh<T>) returns (r: Result<Mesh<T>>)
    ensures r == BinOnIndex(IndexList(index), bins)
  {
    var idx := IndexList(index);
    var subarr := bins;
    var i := 0;
    while i < |idx|
      invariant 0 <= i <= |idx|
      invariant BinOnIndex(idx, bins) == BinOnIndex(idx[i..], subarr)
    {
      if subarr.Cell? {
        return Failure(PyTypeError);
      }
      var sub := At(subarr.items, idx[i]);
      if sub.None? {
        return Failure(LenaIndexError);
      }
      assert idx[i..][1..] == idx[i + 1..];
      subarr := sub.value;
      i := i + 1;
    }
    assert idx[i..] == [];
    return Success(subarr);
  }

  /** *m* has *sizes[0]* sub-bins, each of them of shape *sizes[1..]*,
      down to cells. */
  predicate HasShape<T>(m: Mesh<T>, sizes: seq<nat>)
    decreases |sizes|
  {
    if |sizes| == 0 then m.Cell?
    else m.Cells? && |m.items| == sizes[0] && forall k :: 0 <= k < |m.items| ==> HasShape(m.items[k], sizes[1..])
  }

  /** On bins of a known shape an index no longer than the dimension
      finds a bin exactly when every entry is in range (negative entries
      counting from the end), and otherwise raises LenaIndexError; the
      bin found has the remaining shape. */
  lemma {:induction false} IndexInShape<T>(index: seq<int>, m: Mesh<T>, sizes: seq<nat>)
    requires HasShape(m, sizes) && |index| <= |sizes|
    ensures BinOnIndex(index, m).Success? <==> forall c :: 0 <= c < |index| ==> -sizes[c] <= index[c] < sizes[c]
    ensures BinOnIndex(index, m).Failure? ==> BinOnIndex(index, m).error == LenaIndexError
    ensures BinOnIndex(index, m).Success? ==> HasShape(BinOnIndex(index, m).value, sizes[|index|..])
    decreases |index|
  {
    if |index| > 0 {
      var items := m.items;
      if -sizes[0] <= index[0] < sizes[0] {
        var sub := At(items, index[0]).value;
        assert HasShape(sub, sizes[1..]);
        IndexInShape(index[1..], sub, sizes[1..]);
        assert forall c :: 1 <= c < |index| ==> index[1..][c - 1] == index[c] && sizes[1..][c - 1] == sizes[c];
        assert sizes[1..][|index| - 1..] == sizes[|index|..];
      }
    }
  }

  // ------------------------------------------------------------------
  // Initial bins

  /** `[x] * n`. */
  function Repeat<T>(x: T, n: int): (r: seq<T>)
    ensures |r| == if n > 0 then n else 0
    ensures forall k :: 0 <= k < |r| ==> r[k] == x
  {
    if n <= 0 then [] else seq(n, _ => x)
  }

  /** The number of bins on each axis. */
  function Sizes(axes: seq<seq<real>>): (r: seq<nat>)
    ensures |r| == |axes|
    ensures forall k :: 0 <= k < |axes| ==> r[k] == Bins(axes[k])
  {
    seq(|axes|, k requires 0 <= k < |axes| => Bins(axes[k]))
  }

  /** Every cell holds *v*. */
  ghost predicate Uniform<T>(m: Mesh<T>, v: T)
  {
    match m
    case Cell(x) => x == v
    case Cells(items) => forall k :: 0 <= k < |items| ==> Uniform(items[k], v)
  }

  /** The recursion of `init_bins` over nested edges. */
  function InitAxes<T>(axes: seq<seq<real>>, value: T): (r: Mesh<T>)
    requires |axes| > 0
    ensures HasShape(r, Sizes(axes)) && Uniform(r, value)
    decreases |axes|
  {
    var n := |axes[0]| - 1;
    if |axes| == 1 then Cells(Repeat(Cell(value), n))
    else
      var sub := InitAxes(axes[1..], value);
      assert Sizes(axes)[1..] == Sizes(axes[1..]);
      Cells(Repeat(sub, n))
  }

  /** `init_bins(edges, value)`: bins of the shape of *edges*, with
      `len(axis) - 1` sub-bins on each axis and every cell equal to
      *value*; empty edges raise IndexError. */
  function InitBins<T>(edges: Edges, value: T): (r: Result<Mesh<T>>)
    ensures r.Failure? <==> Dim(edges) == 0 || (edges.Flat? && |edges.xs| == 0)
    ensures r.Failure? ==> r.error == PyIndexError
    ensures r.Success? ==> HasShape(r.value, Sizes(Unify1Md(r.value, edges).1)) && Uniform(r.value, value)
  {
    match edges
    case Flat(xs) =>
      if |xs| == 0 then Failure(PyIndexError)
      else
        var m := Cells(Repeat(Cell(value), |xs| - 1));
        assert HasShape(m, Sizes([xs]));
        Success(m)
    case Axes(axes) =>
      if |axes| == 0 then Failure(PyIndexError) else Success(InitAxes(axes, value))
  }

  // ------------------------------------------------------------------
  // Iteration over bins

  /** Each pair with *k* put in front of its index. */
  function Prefixed<T>(k: int, ps: seq<(seq<int>, T)>): (r: seq<(seq<int>, T)>)
    ensures |r| == |ps|
    ensures forall j :: 0 <= j < |ps| ==> r[j] == ([k] + ps[j].0, ps[j].1)
  {
    seq(|ps|, j requires 0 <= j < |ps| => ([k] + ps[j].0, ps[j].1))
  }

  /** `iter_bins(bins)`: each cell with its index, sub-bins in order, so
      that the last index varies fastest. */
  function IterBins<T>(bins: Mesh<T>): (r: seq<(seq<int>, T)>)
    ensures bins.Cell? ==> r == [([], bins.v)]
    ensures bins.Cells? ==> forall j :: 0 <= j < |r| ==> |r[j].0| > 0 && 0 <= r[j].0[0] < |bins.items|
    decreases bins, 1
  {
    match bins
    case Cell(v) => [([], v)]
    case Cells(_) => IterFrom(bins, 0)
  }

  /** The cells of the sub-bins from the *k*-th on. */
  function IterFrom<T>(bins: Mesh<T>, k: nat): (r: seq<(seq<int>, T)>)
    requires bins.Cells?
    ensures forall j :: 0 <= j < |r| ==> |r[j].0| > 0 && k <= r[j].0[0] < |bins.items|
    decreases bins, 0, |bins.items| - k
  {
    if k >= |bins.items| then [] else Prefixed(k, IterBins(bins.items[k])) + IterFrom(bins, k + 1)
  }

  predicate NonNeg(index: seq<int>)
  {
    forall c :: 0 <= c < |index| ==> index[c] >= 0
  }

  /** `iter_bins` yields a pair exactly when its index, counted from the
      start on every axis, leads to a cell with that content. */
  lemma {:induction false} IterBinsMembers<T>(m: Mesh<T>, index: seq<int>, v: T)
    ensures (index, v) in IterBins(m) <==> NonNeg(index) && BinOnIndex(index, m) == Success(Cell(v))
    decreases m, 1
  {
    match m
    case Cell(x) =>
      if |index| > 0 {
        assert BinOnIndex(index, m) == Failure(PyTypeError);
      }
    case Cells(_) =>
      IterFromMembers(m, 0, index, v);
  }

  lemma {:induction false} IterFromMembers<T>(m: Mesh<T>, k: nat, index: seq<int>, v: T)
    requires m.Cells?
    ensures (index, v) in IterFrom(m, k) <==>
              |index| > 0 && k <= index[0] && NonNeg(index) && BinOnIndex(index, m) == Success(Cell(v))
    decreases m, 0, |m.items| - k
  {
    var items := m.items;
    if k >= |items| {
      if |index| > 0 && k <= index[0] {
        assert At(items, index[0]).None?;
      }
    } else {
      var ps := IterBins(items[k]);
      var front := Prefixed(k, ps);
      var rest := IterFrom(m, k + 1);
      assert IterFrom(m, k) == front + rest;
      IterFromMembers(m, k + 1, index, v);
      if |index| > 0 {
        var tail := index[1..];
        IterBinsMembers(items[k], tail, v);
        assert NonNeg(index) <==> index[0] >= 0 && NonNeg(tail) by {
          assert forall c :: 1 <= c < |index| ==> index[c] == tail[c - 1];
        }
        if (index, v) in front {
          var j :| 0 <= j < |front| && front[j] == (index, v);
          assert tail == ps[j].0;
        }
        if index[0] == k && (tail, v) in ps {
          var j :| 0 <= j < |ps| && ps[j] == (tail, v);
          assert [k] + tail == index;
          assert front[j] == (index, v);
        }
      }
    }
  }

  /** Index order: the first entry that differs is smaller. */
  predicate LexLess(a: seq<int>, b: seq<int>)
    decreases |a|
  {
    |a| > 0 && |b| > 0 && (a[0] < b[0] || (a[0] == b[0] && LexLess(a[1..], b[1..])))
  }

  lemma {:induction false} LexLessIrreflexive(a: seq<int>)
    ensures !LexLess(a, a)
    decreases |a|
  {
    if |a| > 0 {
      LexLessIrreflexive(a[1..]);
    }
  }

  /** `iter_bins` yields indices in increasing order, hence each cell
      once. */
  lemma {:induction false} IterBinsOrdered<T>(m: Mesh<T>)
    ensures forall j, l :: 0 <= j < l < |IterBins(m)| ==> LexLess(IterBins(m)[j].0, IterBins(m)[l].0)
    ensures forall j, l :: 0 <= j < l < |IterBins(m)| ==> IterBins(m)[j].0 != IterBins(m)[l].0
    decreases m, 1
  {
    if m.Cells? {
      IterFromOrdered(m, 0);
    }
    forall j, l | 0 <= j < l < |IterBins(m)|
      ensures IterBins(m)[j].0 != IterBins(m)[l].0
    {
      LexLessIrreflexive(IterBins(m)[j].0);
    }
  }

  lemma {:induction false} IterFromOrdered<T>(m: Mesh<T>, k: nat)
    requires m.Cells?
    ensures forall j, l :: 0 <= j < l < |IterFrom(m, k)| ==> LexLess(IterFrom(m, k)[j].0, IterFrom(m, k)[l].0)
    decreases m, 0, |m.items| - k
  {
    if k < |m.items| {
      var ps := IterBins(m.items[k]);
      var front := Prefixed(k, ps);
      var rest := IterFrom(m, k + 1);
      var all := IterFrom(m, k);
      assert all == front + rest;
      IterBinsOrdered(m.items[k]);
      IterFromOrdered(m, k + 1);
      forall j, l | 0 <= j < l < |all|
        ensures LexLess(all[j].0, all[l].0)
      {
        if l < |front| {
          assert all[j].0 == [k] + ps[j].0 && all[l].0 == [k] + ps[l].0;
          assert ([k] + ps[j].0)[1..] == ps[j].0;
          assert ([k] + ps[l].0)[1..] == ps[l].0;
        } else if j < |front| {
          assert all[l] == rest[l - |front|];
        } else {
          assert all[j] == rest[j - |front|] && all[l] == rest[l - |front|];
        }
      }
    }
  }

  // ------------------------------------------------------------------
  // Bins on a value

  /** How many edges are at or below *val*. */
  function CountAtMost(val: real, arr: seq<real>): (n: nat)
    ensures n <= |arr|
  {
    if |arr| == 0 then 0 else (if arr[0] <= val then 1 else 0) + CountAtMost(val, arr[1..])
  }

  /** On increasing edges those at or below *val* come first. */
  lemma {:induction false} CountAtMostPrefix(val: real, arr: seq<real>)
    requires Sorted(arr)
    ensures forall i :: 0 <= i < |arr| ==> (arr[i] <= val <==> i < CountAtMost(val, arr))
    decreases |arr|
  {
    if |arr| > 0 {
      var tail := arr[1..];
      assert Sorted(tail) by {
        assert forall i, j :: 0 <= i < j < |tail| ==> tail[i] == arr[i + 1] && tail[j] == arr[j + 1];
      }
      CountAtMostPrefix(val, tail);
      forall i | 0 <= i < |arr|
        ensures arr[i] <= val <==> i < CountAtMost(val, arr)
      {
        if i > 0 {
          assert arr[i] == tail[i - 1];
        }
      }
    }
  }

  /** The bin of *val* along one axis: -1 below the first edge, the last
      index at or above the last edge, and otherwise the bin whose lower
      edge is at most *val* and whose upper edge is above it (the lower
      edge is included, the upper one is not). */
  function BinOnValue1d(val: real, arr: seq<real>): (r: int)
    requires Sorted(arr)
    ensures -1 <= r < |arr|
    ensures r >= 0 ==> arr[r] <= val
    ensures r + 1 < |arr| ==> val < arr[r + 1]
  {
    CountAtMostPrefix(val, arr);
    CountAtMost(val, arr) - 1
  }

  /** Those three facts leave one possible bin. */
  lemma BinOnValue1dUnique(val: real, arr: seq<real>, i: int)
    requires Sorted(arr) && -1 <= i < |arr|
    requires i >= 0 ==> arr[i] <= val
    requires i + 1 < |arr| ==> val < arr[i + 1]
    ensures i == BinOnValue1d(val, arr)
  {
  }

  /** `ind_min + int((ind_max - ind_min) * (val - a) / (b - a))`: the
      next bound guessed by linear interpolation between the edges *a*
      and *b*; it lies between the current bounds. */
  function Guess(lo: int, hi: int, a: real, val: real, b: real): (g: int)
    requires lo < hi && a < val < b
    ensures lo <= g <= hi
  {
    GuessBetween(lo, hi, a, val, b);
    lo + ((hi - lo) as real * ((val - a) / (b - a))).Floor
  }

  lemma GuessBetween(lo: int, hi: int, a: real, val: real, b: real)
    requires lo < hi && a < val < b
    ensures var g := lo + ((hi - lo) as real * ((val - a) / (b - a))).Floor; lo <= g <= hi
  {
    var q := (val - a) / (b - a);
    DivBetween(val - a, b - a);
    MulBetween((hi - lo) as real, q);
  }

  lemma DivBetween(x: real, y: real)
    requires 0.0 < x < y
    ensures 0.0 < x / y < 1.0
  {
    var q := x / y;
    assert q * y == x;
    assert (1.0 - q) * y == y - x;
    PositiveFactor(1.0 - q, y);
  }

  lemma PositiveFactor(a: real, b: real)
    requires a * b > 0.0 && b > 0.0
    ensures a > 0.0
  {
  }

  lemma MulBetween(n: real, q: real)
    requires n > 0.0 && 0.0 < q < 1.0
    ensures 0.0 < n * q < n
  {
  }

  /** What the search loop keeps: the bin lies between `ind_min - 1`
      and `ind_max`. */
  predicate Brackets(val: real, arr: seq<real>, lo: int, hi: int)
  {
    0 <= lo <= hi < |arr|
    && (lo > 0 ==> arr[lo - 1] <= val)
    && (hi + 1 < |arr| ==> val < arr[hi + 1])
  }

  /** `get_bin_on_value_1d(val, arr)`: a search that narrows
      `[ind_min, ind_max]`, guessing the next bound by linear
      interpolation. Empty edges raise IndexError. */
  method GetBinOnValue1d(val: real, arr: seq<real>) returns (r: Result<int>)
    requires Sorted(arr)
    ensures |arr| == 0 ==> r == Failure(PyIndexError)
    ensures |arr| > 0 ==> r == Success(BinOnValue1d(val, arr))
  {
    if |arr| == 0 {
      return Failure(PyIndexError);
    }
    var lo := 0;
    var hi := |arr| - 1;
    while true
      invariant Brackets(val, arr, lo, hi)
      decreases hi - lo
    {
      if hi - lo <= 1 {
        var bin := if val < arr[lo] then lo - 1 else if val >= arr[hi] then hi else lo;
        BinOnValue1dUnique(val, arr, bin);
        return Success(bin);
      }
      if val == arr[lo] {
        BinOnValue1dUnique(val, arr, lo);
        return Success(lo);
      }
      if val < arr[lo] || val >= arr[hi] {
        var bin := if val < arr[lo] then lo - 1 else hi;
        BinOnValue1dUnique(val, arr, bin);
        return Success(bin);
      }
      var guess := Guess(lo, hi, arr[lo], val, arr[hi]);
      if lo == guess {
        lo := lo + 1;
        continue;
      } else if hi == guess {
        hi := hi - 1;
        continue;
      }
      if val < arr[guess] {
        hi := guess;
      } else {
        lo := guess;
      }
    }
  }

  /** A bin index inside the bins exactly when the value is inside the
      edges: from the first edge included to the last one excluded. */
  lemma BinInside(val: real, arr: seq<real>)
    requires Sorted(arr) && |arr| > 0
    ensures 0 <= BinOnValue1d(val, arr) < |arr| - 1 <==> arr[0] <= val < arr[|arr| - 1]
  {
    var r := BinOnValue1d(val, arr);
    if 0 <= r < |arr| - 1 {
      assert arr[0] <= arr[r];
      assert arr[r + 1] <= arr[|arr| - 1];
    }
  }

  /** Every axis strictly increasing, as `get_bin_on_value` expects. */
  predicate SortedEdges(edges: Edges)
  {
    match edges
    case Flat(xs) => Sorted(xs)
    case Axes(axes) => forall k :: 0 <= k < |axes| ==> Sorted(axes[k])
  }

  /** `len(edges)`. */
  function Length(edges: Edges): nat
  {
    match edges
    case Flat(xs) => |xs|
    case Axes(axes) => |axes|
  }

  /** `get_bin_on_value_1d(v, arr)` for a value that need not be a number:
      empty edges raise IndexError, a value that is not a number
      TypeError. */
  function BinOnValueAxis(v: Val, arr: seq<real>): (r: Result<int>)
    requires Sorted(arr)
    ensures r.Success? <==> |arr| > 0 && Number(v).Some?
    ensures r.Success? ==> r.value == BinOnValue1d(Number(v).value, arr)
    ensures r.Failure? ==> r.error == (if |arr| == 0 then PyIndexError else PyTypeError)
  {
    if |arr| == 0 then Failure(PyIndexError)
    else if Number(v).None? then Failure(PyTypeError)
    else Success(BinOnValue1d(Number(v).value, arr))
  }

  /** The per-axis search of `get_bin_on_value` on a point. */
  function BinsOnAxes(items: seq<Val>, axes: seq<seq<real>>): (r: Result<seq<int>>)
    requires |items| == |axes| && forall k :: 0 <= k < |axes| ==> Sorted(axes[k])
    ensures r.Success? <==> forall c :: 0 <= c < |axes| ==> BinOnValueAxis(items[c], axes[c]).Success?
    ensures r.Success? ==> |r.value| == |axes|
                           && forall c :: 0 <= c < |axes| ==> BinOnValueAxis(items[c], axes[c]) == Success(r.value[c])
    decreases |axes|
  {
    if |axes| == 0 then Success([])
    else
      var first :- BinOnValueAxis(items[0], axes[0]);
      assert forall c :: 1 <= c < |axes| ==> items[1..][c - 1] == items[c] && axes[1..][c - 1] == axes[c];
      var rest :- BinsOnAxes(items[1..], axes[1..]);
      Success([first] + rest)
  }

  /** The first axis that fails gives the error. */
  lemma {:induction false} BinsOnAxesFirstFailure(items: seq<Val>, axes: seq<seq<real>>, i: nat)
    requires |items| == |axes| && forall k :: 0 <= k < |axes| ==> Sorted(axes[k])
    requires i < |axes| && BinOnValueAxis(items[i], axes[i]).Failure?
    requires forall c :: 0 <= c < i ==> BinOnValueAxis(items[c], axes[c]).Success?
    ensures BinsOnAxes(items, axes) == Failure(BinOnValueAxis(items[i], axes[i]).error)
    decreases i
  {
    if i > 0 {
      assert forall c :: 1 <= c < |axes| ==> items[1..][c - 1] == items[c] && axes[1..][c - 1] == axes[c];
      BinsOnAxesFirstFailure(items[1..], axes[1..], i - 1);
    }
  }

  /** `get_bin_on_value(arg, edges)`: a value that is not a list or tuple
      is searched on the edges as one axis and gives a one-entry index; a
      point is searched axis by axis and must have as many coordinates as
      there are axes (LenaValueError otherwise). */
  function BinOnValue(arg: Val, edges: Edges): (r: Result<seq<int>>)
    requires SortedEdges(edges)
    ensures (arg.VTuple? || arg.VList?) && |arg.items| != Length(edges) ==> r == Failure(LenaValueError)
    ensures !(arg.VTuple? || arg.VList?) && edges.Flat? ==>
              (r.Success? <==> BinOnValueAxis(arg, edges.xs).Success?)
              && (r.Success? ==> r.value == [BinOnValueAxis(arg, edges.xs).value])
    ensures (arg.VTuple? || arg.VList?) && edges.Axes? && |arg.items| == |edges.axes| ==>
              r == BinsOnAxes(arg.items, edges.axes)
  {
    if !(arg.VTuple? || arg.VList?) then
      match edges
      case Flat(xs) =>
        var i :- BinOnValueAxis(arg, xs);
        Success([i])
      case Axes(axes) => if |axes| == 0 then Failure(PyIndexError) else Failure(PyTypeError)
    else if |arg.items| != Length(edges) then Failure(LenaValueError)
    else
      match edges
      case Flat(xs) => if |xs| == 0 then Success([]) else Failure(PyTypeError)
      case Axes(axes) => BinsOnAxes(arg.items, axes)
  }

  /** `get_bin_on_value(arg, edges)`, axis by axis. */
  method GetBinOnValue(arg: Val, edges: Edges) returns (r: Result<seq<int>>)
    requires SortedEdges(edges)
    ensures r == BinOnValue(arg, edges)
  {
    if !(arg.VTuple? || arg.VList?) {
      if edges.Axes? {
        return if |edges.axes| == 0 then Failure(PyIndexError) else Failure(PyTypeError);
      }
      if Number(arg).None? && |edges.xs| > 0 {
        return Failure(PyTypeError);
      }
      var x := if Number(arg).Some? then Number(arg).value else 0.0;
      var i :- GetBinOnValue1d(x, edges.xs);
      return Success([i]);
    }
    var items := arg.items;
    if |items| != Length(edges) {
      return Failure(LenaValueError);
    }
    if edges.Flat? {
      return if |edges.xs| == 0 then Success([]) else Failure(PyTypeError);
    }
    var axes := edges.axes;
    var indices: seq<int> := [];
    for c := 0 to |axes|
      invariant |indices| == c
      invariant forall d :: 0 <= d < c ==> BinOnValueAxis(items[d], axes[d]) == Success(indices[d])
    {
      if |axes[c]| > 0 && Number(items[c]).None? {
        BinsOnAxesFirstFailure(items, axes, c);
        return Failure(PyTypeError);
      }
      var x := if Number(items[c]).Some? then Number(items[c]).value else 0.0;
      var cur := GetBinOnValue1d(x, axes[c]);
      if cur.Failure? {
        BinsOnAxesFirstFailure(items, axes, c);
        return cur.PropagateFailure();
      }
      indices := indices + [cur.value];
    }
    var all := BinsOnAxes(items, axes);
    assert all.Success? && |all.value| == |indices|;
    assert forall d :: 0 <= d < |axes| ==> all.value[d] == indices[d];
    assert all.value == indices;
    return Success(indices);
  }

  /** The product of the widths of a bin along every indexed axis. */
  function WidthProduct(pairs: seq<(real, real)>): real
  {
    if |pairs| == 0 then 1.0 else (pairs[0].1 - pairs[0].0) * WidthProduct(pairs[1..])
  }

  /** Increasing edges give every bin a positive volume. */
  lemma {:induction false} WidthProductPositive(pairs: seq<(real, real)>)
    requires forall c :: 0 <= c < |pairs| ==> pairs[c].0 < pairs[c].1
    ensures WidthProduct(pairs) > 0.0
  {
    if |pairs| > 0 {
      WidthProductPositive(pairs[1..]);
      PositiveProduct(pairs[0].1 - pairs[0].0, WidthProduct(pairs[1..]));
    }
  }

  lemma PositiveProduct(a: real, b: real)
    requires a > 0.0 && b > 0.0
    ensures a * b > 0.0
  {
  }

  /** The volume of the bin at *index*: the widths of its edges along
      every axis multiplied; an index off the edges raises IndexError. */
  function Volume(index: seq<int>, axes: seq<seq<real>>): (r: Result<real>)
    ensures r.Success? <==> BoundsAll(axes, index).Success?
    ensures r.Success? ==> r.value == WidthProduct(BoundsAll(axes, index).value)
  {
    var pairs :- BoundsAll(axes, index);
    Success(WidthProduct(pairs))
  }

  /** One cell's share of the integral: its volume times its content. */
  function CellIntegral(cell: (seq<int>, real), axes: seq<seq<real>>): (r: Result<real>)
    ensures r.Success? <==> Volume(cell.0, axes).Success?
    ensures r.Success? ==> r.value == Volume(cell.0, axes).value * cell.1
  {
    var vol :- Volume(cell.0, axes);
    Success(vol * cell.1)
  }

  /** The sum of volume times content over the cells; the first cell whose
      volume cannot be computed gives the error. */
  function IntegralOf(cells: seq<(seq<int>, real)>, axes: seq<seq<real>>): (r: Result<real>)
    ensures r.Failure? ==> r.error == PyIndexError
    decreases |cells|
  {
    if |cells| == 0 then Success(0.0)
    else
      var term :- CellIntegral(cells[0], axes);
      var rest :- IntegralOf(cells[1..], axes);
      Success(term + rest)
  }

  /** One step of the sum: the first cell's share is added to the rest, and
      an error in the rest is the error of the whole. */
  lemma IntegralOfStep(cells: seq<(seq<int>, real)>, axes: seq<seq<real>>, term: real, rest: Result<real>)
    requires |cells| > 0 && CellIntegral(cells[0], axes) == Success(term)
    requires rest == IntegralOf(cells[1..], axes)
    ensures rest.Failure? ==> IntegralOf(cells, axes) == rest
    ensures rest.Success? ==> IntegralOf(cells, axes) == Success(term + rest.value)
  {
  }

  /** The integral is additive over a split of the cells. */
  lemma {:induction false} IntegralOfAppend(a: seq<(seq<int>, real)>, b: seq<(seq<int>, real)>, axes: seq<seq<real>>)
    ensures IntegralOf(a + b, axes).Success? <==> IntegralOf(a, axes).Success? && IntegralOf(b, axes).Success?
    ensures IntegralOf(a + b, axes).Success? ==>
              IntegralOf(a + b, axes).value == IntegralOf(a, axes).value + IntegralOf(b, axes).value
    decreases |a|
  {
    if |a| == 0 {
      assert a + b == b;
    } else {
      assert (a + b)[0] == a[0];
      assert (a + b)[1..] == a[1..] + b;
      IntegralOfAppend(a[1..], b, axes);
      var term := CellIntegral(a[0], axes);
      if term.Success? {
        IntegralOfStep(a + b, axes, term.value, IntegralOf(a[1..] + b, axes));
        IntegralOfStep(a, axes, term.value, IntegralOf(a[1..], axes));
      }
    }
  }

  /** Cells that all hold zero, on bins inside the edges, integrate to
      zero. */
  lemma {:induction false} IntegralOfZero(cells: seq<(seq<int>, real)>, axes: seq<seq<real>>)
    requires forall j :: 0 <= j < |cells| ==> cells[j].1 == 0.0 && Volume(cells[j].0, axes).Success?
    ensures IntegralOf(cells, axes) == Success(0.0)
    decreases |cells|
  {
    if |cells| > 0 {
      assert forall j :: 1 <= j < |cells| ==> cells[1..][j - 1] == cells[j];
      IntegralOfZero(cells[1..], axes);
    }
  }

  /** Cells with nonnegative contents on increasing edges have a
      nonnegative integral. */
  lemma {:induction false} IntegralOfNonNegative(cells: seq<(seq<int>, real)>, axes: seq<seq<real>>)
    requires forall j :: 0 <= j < |cells| ==> cells[j].1 >= 0.0 && Volume(cells[j].0, axes).Success?
    requires forall k :: 0 <= k < |axes| ==> Sorted(axes[k])
    requires forall j :: 0 <= j < |cells| ==> NonNeg(cells[j].0)
    ensures IntegralOf(cells, axes).Success? && IntegralOf(cells, axes).value >= 0.0
    decreases |cells|
  {
    if |cells| > 0 {
      assert forall j :: 1 <= j < |cells| ==> cells[1..][j - 1] == cells[j];
      IntegralOfNonNegative(cells[1..], axes);
      CellIntegralNonNegative(cells[0], axes);
      IntegralOfStep(cells, axes, CellIntegral(cells[0], axes).value, IntegralOf(cells[1..], axes));
    }
  }

  /** A cell with nonnegative content, on increasing edges, has a
      nonnegative share of the integral. */
  lemma CellIntegralNonNegative(cell: (seq<int>, real), axes: seq<seq<real>>)
    requires cell.1 >= 0.0 && Volume(cell.0, axes).Success?
    requires forall k :: 0 <= k < |axes| ==> Sorted(axes[k])
    requires NonNeg(cell.0)
    ensures CellIntegral(cell, axes).Success? && CellIntegral(cell, axes).value >= 0.0
  {
    var pairs := BoundsAll(axes, cell.0).value;
    forall c | 0 <= c < |pairs|
      ensures pairs[c].0 < pairs[c].1
    {
      assert BoundsOf(axes[c], cell.0[c]) == Success(pairs[c]);
    }
    WidthProductPositive(pairs);
    NonNegativeProduct(WidthProduct(pairs), cell.1);
  }

  lemma NonNegativeProduct(a: real, b: real)
    requires a > 0.0 && b >= 0.0
    ensures a * b >= 0.0
  {
  }

  /** `integral(bins, edges)`: the loop over `iter_bins` accumulating
      volume times content. */
  method Integral(bins: Mesh<real>, axes: seq<seq<real>>) returns (r: Result<real>)
    ensures r == IntegralOf(IterBins(bins), axes)
  {
    var cells := IterBins(bins);
    var total := 0.0;
    for i := 0 to |cells|
      invariant IntegralOf(cells, axes).Success? <==> IntegralOf(cells[i..], axes).Success?
      invariant IntegralOf(cells[i..], axes).Success? ==>
                  IntegralOf(cells, axes).value == total + IntegralOf(cells[i..], axes).value
    {
      assert cells[i..][0] == cells[i] && cells[i..][1..] == cells[i + 1..];
      var vol := Volume(cells[i].0, axes);
      if vol.Failure? {
        return vol;
      }
      var term := vol.value * cells[i].1;
      assert CellIntegral(cells[i], axes).Success?;
      assert CellIntegral(cells[i], axes).value == term;
      IntegralOfStep(cells[i..], axes, term, IntegralOf(cells[i + 1..], axes));
      total := total + term;
    }
    assert cells[|cells|..] == [];
    return Success(total);
  }
}
