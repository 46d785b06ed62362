// Splitting an analysis into bins (lena/flow/split_into_bins.py): the
// bins with their edges, the names of cells, the example bin, and
// `SplitIntoBins`, which keeps a copy of a sequence's state in every bin
// and fills the one the value falls into.

module FlowSplitIntoBins {
  import opened Wrappers
  import opened Values
  import opened CoreElements
  import opened CoreRun
  import opened CoreBuild
  import opened FlowFunctions
  import opened ContextFormat
  import opened HistFunctions
  import opened Histograms
  import opened Variables
  import Strings

  // ------------------------------------------------------------------
  // All indices of a grid

  /** A grid of *sizes[0]* by *sizes[1]* ... cells holding nothing. */
  function Grid(sizes: seq<nat>): (r: Mesh<()>)
    ensures HasShape(r, sizes)
    decreases |sizes|
  {
    if |sizes| == 0 then Cell(())
    else
      var sub := Grid(sizes[1..]);
      Cells(Repeat(sub, sizes[0]))
  }

  /** `itertools.product(*[range(n) for n in sizes])`: the indices of the
      grid, in the order in which `iter_bins` visits them. */
  function Product(sizes: seq<nat>): (r: seq<seq<int>>)
    ensures |r| == |IterBins(Grid(sizes))|
    ensures forall j :: 0 <= j < |r| ==> r[j] == IterBins(Grid(sizes))[j].0
  {
    var cells := IterBins(Grid(sizes));
    seq(|cells|, j requires 0 <= j < |cells| => cells[j].0)
  }

  /** On bins of a known shape, an index leads to a cell exactly when it
      has one entry per axis, each in range. */
  lemma {:induction false} CellOnIndex<T>(index: seq<int>, m: Mesh<T>, sizes: seq<nat>)
    requires HasShape(m, sizes) && NonNeg(index)
    ensures (BinOnIndex(index, m).Success? && BinOnIndex(index, m).value.Cell?) <==>
              |index| == |sizes| && InRange(index, sizes)
    decreases |index|
  {
    if |index| > 0 && |sizes| > 0 {
      if index[0] < |m.items| {
        var tail := index[1..];
        assert NonNeg(tail) by {
          assert forall c :: 0 <= c < |tail| ==> tail[c] == index[c + 1];
        }
        CellOnIndex(tail, m.items[index[0]], sizes[1..]);
        if |index| == |sizes| {
          assert InRange(index, sizes) <==> 0 <= index[0] < sizes[0] && InRange(tail, sizes[1..]) by {
            assert forall c :: 1 <= c < |index| ==> tail[c - 1] == index[c] && sizes[1..][c - 1] == sizes[c];
          }
        }
      }
    } else if |index| > 0 {
      assert BinOnIndex(index, m) == Failure(PyTypeError);
    } else if |sizes| > 0 {
      assert BinOnIndex(index, m) == Success(m);
    }
  }

  /** The product holds exactly the indices with one in-range entry per
      axis. */
  lemma ProductMembers(sizes: seq<nat>, index: seq<int>)
    ensures index in Product(sizes) <==> |index| == |sizes| && InRange(index, sizes)
  {
    var g := Grid(sizes);
    var cells := IterBins(g);
    IterBinsMembers(g, index, ());
    if index in Product(sizes) {
      var j :| 0 <= j < |Product(sizes)| && Product(sizes)[j] == index;
      assert cells[j].1 == ();
      assert cells[j] == (index, ());
      CellOnIndex(index, g, sizes);
    }
    if |index| == |sizes| && InRange(index, sizes) {
      assert NonNeg(index);
      CellOnIndex(index, g, sizes);
      assert BinOnIndex(index, g).value.v == ();
      assert BinOnIndex(index, g) == Success(Cell(()));
      assert (index, ()) in cells;
      var j :| 0 <= j < |cells| && cells[j] == (index, ());
      assert Product(sizes)[j] == index;
    }
  }

  /** The product lists its indices in increasing order, each once. */
  lemma ProductOrdered(sizes: seq<nat>)
    ensures forall j, l :: 0 <= j < l < |Product(sizes)| ==> LexLess(Product(sizes)[j], Product(sizes)[l])
    ensures forall j, l :: 0 <= j < l < |Product(sizes)| ==> Product(sizes)[j] != Product(sizes)[l]
  {
    IterBinsOrdered(Grid(sizes));
  }

  // ------------------------------------------------------------------
  // Bins with their edges

  /** The low and high edge of the bin at *index* on every axis. */
  function EdgePairs(axes: seq<seq<real>>, index: seq<int>): (r: seq<(real, real)>)
    requires |index| == |axes| && InRange(index, Sizes(axes))
    ensures |r| == |index|
    ensures forall c :: 0 <= c < |index| ==> r[c] == (axes[c][index[c]], axes[c][index[c] + 1])
  {
    seq(|index|, c requires 0 <= c < |index| && InRange(index, Sizes(axes)) =>
      (axes[c][index[c]], axes[c][index[c] + 1]))
  }

  /** The bins at the given indices, each with its edges; the first index
      that does not lead to bins raises its error. */
  function BinsWithEdges<T>(bins: Mesh<T>, axes: seq<seq<real>>, indices: seq<seq<int>>)
    : (r: Result<seq<(Mesh<T>, seq<(real, real)>)>>)
    requires forall j :: 0 <= j < |indices| ==> |indices[j]| == |axes| && InRange(indices[j], Sizes(axes))
    ensures r.Success? <==> forall j :: 0 <= j < |indices| ==> BinOnIndex(indices[j], bins).Success?
    ensures r.Success? ==> |r.value| == |indices| && forall j :: 0 <= j < |indices| ==>
              r.value[j] == (BinOnIndex(indices[j], bins).value, EdgePairs(axes, indices[j]))
    decreases |indices|
  {
    if |indices| == 0 then Success([])
    else
      var bin :- BinOnIndex(indices[0], bins);
      assert forall j :: 1 <= j < |indices| ==> indices[1..][j - 1] == indices[j];
      var rest :- BinsWithEdges(bins, axes, indices[1..]);
      Success([(bin, EdgePairs(axes, indices[0]))] + rest)
  }

  /** The axes of `_iter_bins_with_edges`: edges whose first item is not a
      list are one axis; empty edges raise IndexError. */
  function EdgeAxes(edges: Edges): (r: Result<seq<seq<real>>>)
    ensures r.Failure? <==> Length(edges) == 0
    ensures r.Failure? ==> r.error == PyIndexError
    ensures r.Success? ==> r.value == Unify1Md(Cell(()), edges).1
  {
    match edges
    case Flat(xs) => if |xs| == 0 then Failure(PyIndexError) else Success([xs])
    case Axes(axes) => if |axes| == 0 then Failure(PyIndexError) else Success(axes)
  }

  /** `_iter_bins_with_edges(bins, edges)`: every index of the bins'
      grid in product order, with the bin there and its (low, high) edges
      on every axis. */
  function IterBinsWithEdges<T>(bins: Mesh<T>, edges: Edges): (r: Result<seq<(Mesh<T>, seq<(real, real)>)>>)
    ensures Length(edges) == 0 ==> r == Failure(PyIndexError)
    ensures r.Success? ==>
              (Length(edges) > 0 &&
               var indices := Product(Sizes(EdgeAxes(edges).value));
               |r.value| == |indices| &&
               forall j :: 0 <= j < |indices| ==> BinOnIndex(indices[j], bins) == Success(r.value[j].0))
  {
    var axes :- EdgeAxes(edges);
    var indices := Product(Sizes(axes));
    assert forall j :: 0 <= j < |indices| ==> |indices[j]| == |axes| && InRange(indices[j], Sizes(axes)) by {
      forall j | 0 <= j < |indices|
        ensures |indices[j]| == |axes| && InRange(indices[j], Sizes(axes))
      {
        ProductMembers(Sizes(axes), indices[j]);
      }
    }
    BinsWithEdges(bins, axes, indices)
  }

  /** On bins of the edges' shape every bin of the grid is yielded once,
      in product order, as a cell, with edges that increase on every axis;
      and every cell is among them. */
  lemma IterBinsWithEdgesShaped<T>(bins: Mesh<T>, edges: Edges)
    requires ValidEdges(edges) && HasShape(bins, Sizes(Unify1Md(bins, edges).1))
    ensures var r := IterBinsWithEdges(bins, edges);
            var axes := Unify1Md(bins, edges).1;
            var indices := Product(Sizes(axes));
            r.Success? && |r.value| == |indices|
            && (forall j :: 0 <= j < |indices| ==>
                  |indices[j]| == |axes| && InRange(indices[j], Sizes(axes))
                  && r.value[j].0.Cell? && ValidPath(bins, indices[j]) && r.value[j].0 == MeshAt(bins, indices[j])
                  && forall c :: 0 <= c < |axes| ==> r.value[j].1[c].0 < r.value[j].1[c].1)
            && (forall index :: |index| == |axes| && InRange(index, Sizes(axes)) ==> index in indices)
  {
    var axes := Unify1Md(bins, edges).1;
    var sizes := Sizes(axes);
    var indices := Product(sizes);
    IterIsBins(bins, edges, axes);
    ShapedBins(bins, sizes);
    var r := BinsWithEdges(bins, axes, indices);
    assert r.Success?;
    forall j | 0 <= j < |indices|
      ensures forall c :: 0 <= c < |axes| ==> r.value[j].1[c].0 < r.value[j].1[c].1
    {
      EdgesIncrease(axes, indices[j]);
    }
    forall index | |index| == |axes| && InRange(index, sizes)
      ensures index in indices
    {
      ProductMembers(sizes, index);
    }
  }

  /** `_iter_bins_with_edges` visits the whole grid of its axes. */
  lemma IterIsBins<T>(bins: Mesh<T>, edges: Edges, axes: seq<seq<real>>)
    requires EdgeAxes(edges) == Success(axes)
    ensures var indices := Product(Sizes(axes));
            forall j :: 0 <= j < |indices| ==> |indices[j]| == |axes| && InRange(indices[j], Sizes(axes))
    ensures IterBinsWithEdges(bins, edges) == BinsWithEdges(bins, axes, Product(Sizes(axes)))
  {
    var indices := Product(Sizes(axes));
    forall j | 0 <= j < |indices|
      ensures |indices[j]| == |axes| && InRange(indices[j], Sizes(axes))
    {
      ProductMembers(Sizes(axes), indices[j]);
    }
  }

  /** On valid axes the low edge of a bin lies below its high edge. */
  lemma EdgesIncrease(axes: seq<seq<real>>, index: seq<int>)
    requires forall k :: 0 <= k < |axes| ==> ValidAxis(axes[k])
    requires |index| == |axes| && InRange(index, Sizes(axes))
    ensures forall c :: 0 <= c < |axes| ==> EdgePairs(axes, index)[c].0 < EdgePairs(axes, index)[c].1
  {
    forall c | 0 <= c < |axes|
      ensures EdgePairs(axes, index)[c].0 < EdgePairs(axes, index)[c].1
    {
      assert ValidAxis(axes[c]);
    }
  }

  /** On bins of the grid's shape every index of the grid leads to a
      cell, the one at that path. */
  lemma ShapedBins<T>(bins: Mesh<T>, sizes: seq<nat>)
    requires HasShape(bins, sizes)
    ensures var indices := Product(sizes);
            forall j :: 0 <= j < |indices| ==>
              && |indices[j]| == |sizes| && InRange(indices[j], sizes)
              && BinOnIndex(indices[j], bins).Success? && BinOnIndex(indices[j], bins).value.Cell?
              && ValidPath(bins, indices[j]) && BinOnIndex(indices[j], bins).value == MeshAt(bins, indices[j])
  {
    var indices := Product(sizes);
    forall j | 0 <= j < |indices|
      ensures |indices[j]| == |sizes| && InRange(indices[j], sizes)
      ensures BinOnIndex(indices[j], bins).Success? && BinOnIndex(indices[j], bins).value.Cell?
      ensures ValidPath(bins, indices[j]) && BinOnIndex(indices[j], bins).value == MeshAt(bins, indices[j])
    {
      ProductMembers(sizes, indices[j]);
      assert NonNeg(indices[j]);
      CellOnIndex(indices[j], bins, sizes);
      InRangePath(bins, indices[j], sizes);
      OnIndexAt(bins, indices[j]);
    }
  }

  /** A valid path finds the same bins as `get_bin_on_index`. */
  lemma {:induction false} OnIndexAt<T>(m: Mesh<T>, path: seq<int>)
    requires ValidPath(m, path)
    ensures BinOnIndex(path, m) == Success(MeshAt(m, path))
    decreases |path|
  {
    if |path| > 0 {
      OnIndexAt(m.items[path[0]], path[1..]);
    }
  }

  lemma PrefixedOne<T>(k: int, v: T)
    ensures Prefixed(k, [([], v)]) == [([k], v)]
  {
    assert [k] + [] == [k];
  }

  lemma PrefixedTwo<T>(k: int, a: T, b: T)
    ensures Prefixed(k, [([0], a), ([1], b)]) == [([k, 0], a), ([k, 1], b)]
  {
    assert [k] + [0] == [k, 0];
    assert [k] + [1] == [k, 1];
  }

  /** Two cells are visited in order. */
  lemma IterTwo<T>(a: T, b: T)
    ensures IterBins(Cells([Cell(a), Cell(b)])) == [([0], a), ([1], b)]
  {
    var m := Cells([Cell(a), Cell(b)]);
    assert IterFrom(m, 2) == [];
    assert IterBins(Cell(b)) == [([], b)];
    PrefixedOne(1, b);
    assert IterFrom(m, 1) == [([1], b)];
    assert IterBins(Cell(a)) == [([], a)];
    PrefixedOne(0, a);
    assert IterFrom(m, 0) == [([0], a)] + [([1], b)];
  }

  /** Two rows of two cells are visited row by row. */
  lemma IterTwoByTwo<T>(a: T, b: T, c: T, d: T)
    ensures IterBins(Cells([Cells([Cell(a), Cell(b)]), Cells([Cell(c), Cell(d)])]))
            == [([0, 0], a), ([0, 1], b), ([1, 0], c), ([1, 1], d)]
  {
    var r0, r1 := Cells([Cell(a), Cell(b)]), Cells([Cell(c), Cell(d)]);
    var m := Cells([r0, r1]);
    IterTwo(a, b);
    IterTwo(c, d);
    assert IterFrom(m, 2) == [];
    PrefixedTwo(1, c, d);
    assert IterFrom(m, 1) == [([1, 0], c), ([1, 1], d)];
    PrefixedTwo(0, a, b);
    assert IterFrom(m, 0) == [([0, 0], a), ([0, 1], b)] + [([1, 0], c), ([1, 1], d)];
  }

  /** Given the grid's indices and what lies at each, the bins with
      their edges are exactly those. */
  lemma IterBinsWithEdgesFrom<T>(bins: Mesh<T>, edges: Edges, axes: seq<seq<real>>, indices: seq<seq<int>>,
                                 r: seq<(Mesh<T>, seq<(real, real)>)>)
    requires EdgeAxes(edges) == Success(axes) && Product(Sizes(axes)) == indices
    requires forall j :: 0 <= j < |indices| ==> |indices[j]| == |axes| && InRange(indices[j], Sizes(axes))
    requires |r| == |indices|
    requires forall j :: 0 <= j < |indices| ==>
               BinOnIndex(indices[j], bins) == Success(r[j].0) && EdgePairs(axes, indices[j]) == r[j].1
    ensures IterBinsWithEdges(bins, edges) == Success(r)
  {
    var res := BinsWithEdges(bins, axes, indices);
    assert res.Success?;
    assert forall j :: 0 <= j < |r| ==> res.value[j] == r[j];
    assert res.value == r;
  }

  /** The one-dimensional example: two bins on edges x0, x1, x2 come
      with the pairs (x0, x1) and (x1, x2). */
  lemma IterBinsWithEdgesExample<T>(a: T, b: T, x0: real, x1: real, x2: real)
    ensures IterBinsWithEdges(Cells([Cell(a), Cell(b)]), Flat([x0, x1, x2]))
            == Success([(Cell(a), [(x0, x1)]), (Cell(b), [(x1, x2)])])
  {
    var u := ();
    assert Grid([2]) == Cells([Cell(u), Cell(u)]);
    IterTwo(u, u);
    var axes := [[x0, x1, x2]];
    assert Sizes(axes) == [2];
    assert Product([2]) == [[0], [1]];
    var bins := Cells([Cell(a), Cell(b)]);
    assert BinOnIndex([0], bins) == Success(Cell(a));
    assert BinOnIndex([1], bins) == Success(Cell(b));
    assert EdgePairs(axes, [0]) == [(x0, x1)];
    assert EdgePairs(axes, [1]) == [(x1, x2)];
    IterBinsWithEdgesFrom(bins, Flat([x0, x1, x2]), axes, [[0], [1]], [(Cell(a), [(x0, x1)]), (Cell(b), [(x1, x2)])]);
  }

  /** Two axes of two bins each give the indices row by row. */
  lemma ProductTwoByTwo()
    ensures Product([2, 2]) == [[0, 0], [0, 1], [1, 0], [1, 1]]
  {
    var u := ();
    var row := Cells([Cell(u), Cell(u)]);
    assert Grid([2]) == row;
    assert Grid([2, 2]) == Cells([row, row]);
    IterTwoByTwo(u, u, u, u);
  }

  lemma BinsTwoByTwo<T>(a: T, b: T, c: T, d: T)
    ensures var bins := Cells([Cells([Cell(a), Cell(b)]), Cells([Cell(c), Cell(d)])]);
      BinOnIndex([0, 0], bins) == Success(Cell(a)) && BinOnIndex([0, 1], bins) == Success(Cell(b)) &&
      BinOnIndex([1, 0], bins) == Success(Cell(c)) && BinOnIndex([1, 1], bins) == Success(Cell(d))
  {
    assert [0, 0][1..] == [0] && [0, 1][1..] == [1] && [1, 0][1..] == [0] && [1, 1][1..] == [1];
  }

  lemma EdgePairsTwo(xs: seq<real>, ys: seq<real>, i: nat, j: nat)
    requires i + 1 < |xs| && j + 1 < |ys|
    ensures InRange([i, j], Sizes([xs, ys]))
    ensures EdgePairs([xs, ys], [i, j]) == [(xs[i], xs[i + 1]), (ys[j], ys[j + 1])]
  {
    assert Sizes([xs, ys]) == [|xs| - 1, |ys| - 1];
  }

  /** Four indices whose bins and edges are known give those four. */
  lemma BinsWithEdgesFour<T>(bins: Mesh<T>, axes: seq<seq<real>>, i0: seq<int>, i1: seq<int>, i2: seq<int>, i3: seq<int>,
                             r0: (Mesh<T>, seq<(real, real)>), r1: (Mesh<T>, seq<(real, real)>),
                             r2: (Mesh<T>, seq<(real, real)>), r3: (Mesh<T>, seq<(real, real)>))
    requires |i0| == |axes| && InRange(i0, Sizes(axes)) && BinOnIndex(i0, bins) == Success(r0.0) && EdgePairs(axes, i0) == r0.1
    requires |i1| == |axes| && InRange(i1, Sizes(axes)) && BinOnIndex(i1, bins) == Success(r1.0) && EdgePairs(axes, i1) == r1.1
    requires |i2| == |axes| && InRange(i2, Sizes(axes)) && BinOnIndex(i2, bins) == Success(r2.0) && EdgePairs(axes, i2) == r2.1
    requires |i3| == |axes| && InRange(i3, Sizes(axes)) && BinOnIndex(i3, bins) == Success(r3.0) && EdgePairs(axes, i3) == r3.1
    ensures BinsWithEdges(bins, axes, [i0, i1, i2, i3]) == Success([r0, r1, r2, r3])
  {
    var indices := [i0, i1, i2, i3];
    var res := BinsWithEdges(bins, axes, indices);
    assert res.Success?;
    assert res.value == [r0, r1, r2, r3];
  }

  /** The two-dimensional example: the bins come in product order, the
      last axis varying fastest. */
  lemma IterBinsWithEdges2dExample<T>(a: T, b: T, c: T, d: T, xs: seq<real>, ys: seq<real>)
    requires |xs| == 3 && |ys| == 3
    ensures IterBinsWithEdges(Cells([Cells([Cell(a), Cell(b)]), Cells([Cell(c), Cell(d)])]), Axes([xs, ys]))
            == Success([(Cell(a), [(xs[0], xs[1]), (ys[0], ys[1])]), (Cell(b), [(xs[0], xs[1]), (ys[1], ys[2])]),
                        (Cell(c), [(xs[1], xs[2]), (ys[0], ys[1])]), (Cell(d), [(xs[1], xs[2]), (ys[1], ys[2])])])
  {
    var axes := [xs, ys];
    var bins := Cells([Cells([Cell(a), Cell(b)]), Cells([Cell(c), Cell(d)])]);
    assert Sizes(axes) == [2, 2];
    ProductTwoByTwo();
    IterIsBins(bins, Axes(axes), axes);
    BinsTwoByTwo(a, b, c, d);
    EdgePairsTwo(xs, ys, 0, 0);
    EdgePairsTwo(xs, ys, 0, 1);
    EdgePairsTwo(xs, ys, 1, 0);
    EdgePairsTwo(xs, ys, 1, 1);
    BinsWithEdgesFour(bins, axes, [0, 0], [0, 1], [1, 0], [1, 1],
                      (Cell(a), [(xs[0], xs[1]), (ys[0], ys[1])]), (Cell(b), [(xs[0], xs[1]), (ys[1], ys[2])]),
                      (Cell(c), [(xs[1], xs[2]), (ys[0], ys[1])]), (Cell(d), [(xs[1], xs[2]), (ys[1], ys[2])]));
  }

  // ------------------------------------------------------------------
  // Names of cells

  function Reversed<T>(s: seq<T>): (r: seq<T>)
    ensures |r| == |s| && forall i :: 0 <= i < |s| ==> r[i] == s[|s| - 1 - i]
  {
    seq(|s|, i requires 0 <= i < |s| => s[|s| - 1 - i])
  }

  /** Python's `str` of a value: known for scalars, given otherwise. */
  function Str(v: Val, pyStr: Val -> string): string
  {
    if ScalarStr(v).Some? then ScalarStr(v).value else pyStr(v)
  }

  /** The `name` of each variable context in a combination. */
  function CombinedNames(vars: seq<Val>): (r: Result<seq<Val>>)
    ensures r.Success? <==> forall i :: 0 <= i < |vars| ==> vars[i].VDict? && "name" in vars[i].m
    ensures r.Success? ==> |r.value| == |vars| && forall i :: 0 <= i < |vars| ==> r.value[i] == vars[i].m["name"]
    decreases |vars|
  {
    if |vars| == 0 then Success([])
    else
      var first :- if !vars[0].VDict? then Failure(PyTypeError)
                   else if "name" !in vars[0].m then Failure(PyKeyError)
                   else Success(vars[0].m["name"]);
      assert forall i :: 1 <= i < |vars| ==> vars[1..][i - 1] == vars[i];
      var rest :- CombinedNames(vars[1..]);
      Success([first] + rest)
  }

  /** The default coordinate names of `cell_to_string`: `coord0`,
      `coord1`, ... without a variable context; the names of the combined
      variables, or the variable's own name, with one. */
  function CoordNames(n: nat, varContext: Option<Dict>): (r: Result<seq<Val>>)
    ensures varContext.None? ==>
              (r.Success? && |r.value| == n && forall i :: 0 <= i < n ==> r.value[i] == VStr("coord" + NatToDecimal(i)))
    ensures varContext.Some? && "combine" !in varContext.value ==>
              r == (if "name" in varContext.value then Success([varContext.value["name"]]) else Failure(PyKeyError))
  {
    match varContext
    case None => Success(seq(n, i requires 0 <= i < n => VStr("coord" + NatToDecimal(i))))
    case Some(vc) =>
      if "combine" in vc then
        var vars :- Iterate(vc["combine"]);
        CombinedNames(vars)
      else if "name" in vc then Success([vc["name"]])
      else Failure(PyKeyError)
  }

  /** One coordinate: the format filled with the low edge, the name and the
      high edge. */
  function CoordString(edge: (real, real), name: Val, fmt: string, pyStr: Val -> string): Result<string>
  {
    PyFormat(fmt, [Str(VReal(edge.0), pyStr), Str(name, pyStr), Str(VReal(edge.1), pyStr)])
  }

  /** *f* applied to every (edge, name) pair, in order; the first error is
      raised. */
  function FormatEach(edges: seq<(real, real)>, names: seq<Val>, f: ((real, real), Val) -> Result<string>)
    : (r: Result<seq<string>>)
    requires |edges| == |names|
    ensures r.Success? <==> forall i :: 0 <= i < |edges| ==> f(edges[i], names[i]).Success?
    ensures r.Success? ==>
              (|r.value| == |edges| && forall i :: 0 <= i < |edges| ==> f(edges[i], names[i]) == Success(r.value[i]))
    decreases |edges|
  {
    if |edges| == 0 then Success([])
    else
      var first :- f(edges[0], names[0]);
      assert forall i :: 1 <= i < |edges| ==> edges[1..][i - 1] == edges[i] && names[1..][i - 1] == names[i];
      var rest :- FormatEach(edges[1..], names[1..], f);
      Success([first] + rest)
  }

  function CoordFn(fmt: string, pyStr: Val -> string): ((real, real), Val) -> Result<string>
  {
    (e: (real, real), n: Val) => CoordString(e, n, fmt, pyStr)
  }

  /** Every coordinate formatted, in order; the first error is raised. */
  function CoordStrings(edges: seq<(real, real)>, names: seq<Val>, fmt: string, pyStr: Val -> string)
    : (r: Result<seq<string>>)
    requires |edges| == |names|
    ensures r.Success? <==> forall i :: 0 <= i < |edges| ==> CoordString(edges[i], names[i], fmt, pyStr).Success?
    ensures r.Success? ==>
              (|r.value| == |edges| && forall i :: 0 <= i < |edges| ==> CoordString(edges[i], names[i], fmt, pyStr) == Success(r.value[i]))
  {
    FormatEach(edges, names, CoordFn(fmt, pyStr))
  }

  /** `cell_to_string(cell_edges, var_context, coord_names, coord_fmt,
      coord_join, reverse)`: one formatted string per coordinate, joined,
      in reverse order when asked; as many names as coordinates are
      required (LenaValueError otherwise). */
  function CellToString(cellEdges: seq<(real, real)>, varContext: Option<Dict>, coordNames: Option<seq<Val>>,
                        coordFmt: string, coordJoin: string, reverse: bool, pyStr: Val -> string): (r: Result<string>)
    ensures coordNames.Some? && |coordNames.value| != |cellEdges| ==> r == Failure(LenaValueError)
    ensures coordNames.Some? && |coordNames.value| == |cellEdges| ==>
              var strs := CoordStrings(cellEdges, coordNames.value, coordFmt, pyStr);
              (r.Success? <==> strs.Success?)
              && (r.Success? ==> r.value == Strings.JoinStr(if reverse then Reversed(strs.value) else strs.value, coordJoin))
  {
    var names :- if coordNames.Some? then Success(coordNames.value) else CoordNames(|cellEdges|, varContext);
    if |cellEdges| != |names| then Failure(LenaValueError)
    else
      var strs :- CoordStrings(cellEdges, names, coordFmt, pyStr);
      Success(Strings.JoinStr(if reverse then Reversed(strs) else strs, coordJoin))
  }

  /** When every pair is formatted, the reversed pairs are too, into the
      reversed strings. */
  lemma FormatEachReversedOk(edges: seq<(real, real)>, names: seq<Val>, f: ((real, real), Val) -> Result<string>)
    requires |edges| == |names|
    requires FormatEach(edges, names, f).Success?
    ensures var b := FormatEach(Reversed(edges), Reversed(names), f);
            b.Success? && b.value == Reversed(FormatEach(edges, names, f).value)
  {
    var n := |edges|;
    var re, rn := Reversed(edges), Reversed(names);
    var a := FormatEach(edges, names, f).value;
    forall i | 0 <= i < n
      ensures f(re[i], rn[i]) == Success(Reversed(a)[i])
    {
      assert re[i] == edges[n - 1 - i] && rn[i] == names[n - 1 - i];
      assert f(edges[n - 1 - i], names[n - 1 - i]) == Success(a[n - 1 - i]);
    }
    var b := FormatEach(re, rn, f);
    assert b.Success?;
    assert forall i :: 0 <= i < n ==> b.value[i] == Reversed(a)[i];
  }

  /** When some pair fails, a reversed one fails too. */
  lemma FormatEachReversedFails(edges: seq<(real, real)>, names: seq<Val>, f: ((real, real), Val) -> Result<string>)
    requires |edges| == |names|
    requires FormatEach(edges, names, f).Failure?
    ensures FormatEach(Reversed(edges), Reversed(names), f).Failure?
  {
    var n := |edges|;
    var i :| 0 <= i < n && f(edges[i], names[i]).Failure?;
    assert Reversed(edges)[n - 1 - i] == edges[i] && Reversed(names)[n - 1 - i] == names[i];
    assert f(Reversed(edges)[n - 1 - i], Reversed(names)[n - 1 - i]).Failure?;
  }

  /** Formatting the reversed coordinates gives the reversed strings. */
  lemma CoordStringsReversed(cellEdges: seq<(real, real)>, names: seq<Val>, fmt: string, pyStr: Val -> string)
    requires |cellEdges| == |names|
    ensures var a := CoordStrings(cellEdges, names, fmt, pyStr);
            var b := CoordStrings(Reversed(cellEdges), Reversed(names), fmt, pyStr);
            (a.Success? <==> b.Success?) && (a.Success? ==> b.value == Reversed(a.value))
  {
    var f := CoordFn(fmt, pyStr);
    if FormatEach(cellEdges, names, f).Success? {
      FormatEachReversedOk(cellEdges, names, f);
    } else {
      FormatEachReversedFails(cellEdges, names, f);
    }
  }

  /** Joining in reverse order is naming the reversed cell with the
      reversed names (the error raised may differ: the first coordinate
      that fails is met from the other end). */
  lemma CellToStringReverse(cellEdges: seq<(real, real)>, names: seq<Val>, fmt: string, join: string,
                            pyStr: Val -> string)
    ensures var a := CellToString(cellEdges, None, Some(names), fmt, join, true, pyStr);
            var b := CellToString(Reversed(cellEdges), None, Some(Reversed(names)), fmt, join, false, pyStr);
            (a.Success? <==> b.Success?) && (a.Success? ==> a.value == b.value)
  {
    if |cellEdges| == |names| {
      CoordStringsReversed(cellEdges, names, fmt, pyStr);
    }
  }

  /** A first character that is not a brace is copied by `str.format`. */
  lemma FormatPlainChar(s: string, args: seq<string>)
    requires |s| > 0 && s[0] != '{' && s[0] != '}'
    ensures PyFormat(s, args) == PrependStr([s[0]], PyFormat(s[1..], args))
  {
  }

  /** Text without braces is copied by `str.format`. */
  lemma {:induction false} FormatLiteral(lit: string, t: string, args: seq<string>)
    requires forall i :: 0 <= i < |lit| ==> lit[i] != '{' && lit[i] != '}'
    ensures PyFormat(lit + t, args) == PrependStr(lit, PyFormat(t, args))
    decreases |lit|
  {
    if |lit| > 0 {
      var s := lit + t;
      assert s[0] == lit[0] && s[1..] == lit[1..] + t;
      FormatPlainChar(s, args);
      FormatLiteral(lit[1..], t, args);
      PrependTwice([lit[0]], lit[1..], PyFormat(t, args));
      assert [lit[0]] + lit[1..] == lit;
    } else {
      assert lit + t == t;
      PrependNothing(PyFormat(t, args));
    }
  }

  lemma PrependTwice(a: string, b: string, r: Result<string>)
    ensures PrependStr(a, PrependStr(b, r)) == PrependStr(a + b, r)
  {
    if r.Success? {
      assert a + (b + r.value) == (a + b) + r.value;
    }
  }

  lemma PrependNothing(r: Result<string>)
    ensures PrependStr("", r) == r
  {
    if r.Success? {
      assert "" + r.value == r.value;
    }
  }

  /** An empty field `{}` takes the next argument. */
  lemma FormatField(t: string, args: seq<string>)
    requires |args| > 0
    ensures PyFormat("{}" + t, args) == PrependStr(args[0], PyFormat(t, args[1..]))
  {
    var s := "{}" + t;
    assert s[0] == '{' && s[1] == '}';
    assert FindChar(s, '}', 1) == 1;
    assert s[2..] == t;
  }

  lemma FieldStep(t: string, args: seq<string>, v: string)
    requires |args| > 0 && PyFormat(t, args[1..]) == Success(v)
    ensures PyFormat("{}" + t, args) == Success(args[0] + v)
  {
    FormatField(t, args);
  }

  lemma LiteralStep(lit: string, t: string, args: seq<string>, v: string)
    requires forall i :: 0 <= i < |lit| ==> lit[i] != '{' && lit[i] != '}'
    requires PyFormat(t, args) == Success(v)
    ensures PyFormat(lit + t, args) == Success(lit + v)
  {
    FormatLiteral(lit, t, args);
  }

  /** Three fields separated by text without braces take the three
      arguments in order. */
  lemma FormatThree(a: string, b: string, x: string, y: string, z: string)
    requires forall i :: 0 <= i < |a| ==> a[i] != '{' && a[i] != '}'
    requires forall i :: 0 <= i < |b| ==> b[i] != '{' && b[i] != '}'
    ensures PyFormat("{}" + (a + ("{}" + (b + "{}"))), [x, y, z]) == Success(x + (a + (y + (b + z))))
  {
    var e: string := [];
    assert PyFormat(e, []) == Success(e);
    assert [z][1..] == [] && [y, z][1..] == [z] && [x, y, z][1..] == [y, z];
    FieldStep(e, [z], e);
    assert "{}" + e == "{}" && z + e == z;
    LiteralStep(b, "{}", [z], z);
    FieldStep(b + "{}", [y, z], b + z);
    LiteralStep(a, "{}" + (b + "{}"), [y, z], y + (b + z));
    FieldStep(a + ("{}" + (b + "{}")), [x, y, z], a + (y + (b + z)));
  }

  /** The format of the examples, filled. */
  lemma FormatExample(lo: string, name: string, hi: string)
    ensures PyFormat("{}_lte_{}_lt_{}", [lo, name, hi]) == Success(lo + ("_lte_" + (name + ("_lt_" + hi))))
  {
    FormatThree("_lte_", "_lt_", lo, name, hi);
    assert "{}" + ("_lte_" + ("{}" + ("_lt_" + "{}"))) == "{}_lte_{}_lt_{}";
  }

  /** The format of the examples. */
  const CoordFmt: string := "{}_lte_{}_lt_{}"

  /** A cell's coordinate in the examples' format. */
  function Named(edge: (real, real), name: string, pyStr: Val -> string): string
  {
    pyStr(VReal(edge.0)) + ("_lte_" + (name + ("_lt_" + pyStr(VReal(edge.1)))))
  }

  lemma CoordStringExample(edge: (real, real), name: string, pyStr: Val -> string)
    ensures CoordString(edge, VStr(name), CoordFmt, pyStr) == Success(Named(edge, name, pyStr))
  {
    FormatExample(pyStr(VReal(edge.0)), name, pyStr(VReal(edge.1)));
  }

  lemma CoordStringsTwo(e1: (real, real), e2: (real, real), n1: Val, n2: Val, fmt: string, pyStr: Val -> string,
                        s1: string, s2: string)
    requires CoordString(e1, n1, fmt, pyStr) == Success(s1)
    requires CoordString(e2, n2, fmt, pyStr) == Success(s2)
    ensures CoordStrings([e1, e2], [n1, n2], fmt, pyStr) == Success([s1, s2])
  {
    var edges, names := [e1, e2], [n1, n2];
    var cs := CoordStrings(edges, names, fmt, pyStr);
    assert CoordString(edges[0], names[0], fmt, pyStr).Success?;
    assert CoordString(edges[1], names[1], fmt, pyStr).Success?;
    assert cs.Success? && |cs.value| == 2;
    assert cs.value[0] == s1 && cs.value[1] == s2;
    assert cs.value == [s1, s2];
  }

  lemma JoinTwo(a: string, b: string, join: string)
    ensures Strings.JoinStr([a, b], join) == a + join + b
  {
    assert [a, b][1..] == [b];
  }

  /** Two named coordinates are joined in order, or in reverse order. */
  lemma CellToStringTwo(e1: (real, real), e2: (real, real), n1: Val, n2: Val, fmt: string, join: string,
                        reverse: bool, pyStr: Val -> string, s1: string, s2: string)
    requires CoordString(e1, n1, fmt, pyStr) == Success(s1)
    requires CoordString(e2, n2, fmt, pyStr) == Success(s2)
    ensures CellToString([e1, e2], None, Some([n1, n2]), fmt, join, reverse, pyStr)
            == Success(if reverse then s2 + join + s1 else s1 + join + s2)
  {
    CoordStringsTwo(e1, e2, n1, n2, fmt, pyStr, s1, s2);
    assert Reversed([s1, s2]) == [s2, s1];
    JoinTwo(s1, s2, join);
    JoinTwo(s2, s1, join);
  }

  /** Without names, the only coordinate is called `coord0`. */
  lemma CellToStringDefault(edge: (real, real), fmt: string, join: string, reverse: bool, pyStr: Val -> string, s: string)
    requires CoordString(edge, VStr("coord0"), fmt, pyStr) == Success(s)
    ensures CellToString([edge], None, None, fmt, join, reverse, pyStr) == Success(s)
  {
    var names := CoordNames(1, None);
    assert names.value[0] == VStr("coord" + NatToDecimal(0));
    assert NatToDecimal(0) == "0";
    assert "coord" + "0" == "coord0";
    assert names.value == [VStr("coord0")];
    var cs := CoordStrings([edge], [VStr("coord0")], fmt, pyStr);
    assert CoordString([edge][0], [VStr("coord0")][0], fmt, pyStr).Success?;
    assert cs.Success? && cs.value == [s];
    assert Reversed([s]) == [s];
  }

  /** The examples' format without names: the coordinate is `coord0`. */
  lemma CellToStringDefaultExample(edge: (real, real), join: string, reverse: bool, pyStr: Val -> string)
    ensures CellToString([edge], None, None, CoordFmt, join, reverse, pyStr) == Success(Named(edge, "coord0", pyStr))
  {
    CoordStringExample(edge, "coord0", pyStr);
    CellToStringDefault(edge, CoordFmt, join, reverse, pyStr, Named(edge, "coord0", pyStr));
  }

  /** The examples' format with two names, in either order. */
  lemma CellToStringTwoExample(e1: (real, real), e2: (real, real), x: string, y: string, join: string,
                               reverse: bool, pyStr: Val -> string)
    ensures CellToString([e1, e2], None, Some([VStr(x), VStr(y)]), CoordFmt, join, reverse, pyStr)
            == Success(if reverse then Named(e2, y, pyStr) + join + Named(e1, x, pyStr)
                       else Named(e1, x, pyStr) + join + Named(e2, y, pyStr))
  {
    CoordStringExample(e1, x, pyStr);
    CoordStringExample(e2, y, pyStr);
    CellToStringTwo(e1, e2, VStr(x), VStr(y), CoordFmt, join, reverse, pyStr, Named(e1, x, pyStr), Named(e2, y, pyStr));
  }

  /** The names of a combined variable's parts name its coordinates. */
  lemma CellToStringCombined(e1: (real, real), e2: (real, real), x: Val, y: Val, fmt: string, join: string,
                             pyStr: Val -> string, s1: string, s2: string)
    requires CoordString(e1, x, fmt, pyStr) == Success(s1)
    requires CoordString(e2, y, fmt, pyStr) == Success(s2)
    ensures CellToString([e1, e2], Some(map["combine" := VTuple([VDict(map["name" := x]), VDict(map["name" := y])])]),
                         None, fmt, join, false, pyStr)
            == Success(s1 + join + s2)
  {
    var vars := [VDict(map["name" := x]), VDict(map["name" := y])];
    var vc := map["combine" := VTuple(vars)];
    assert Iterate(VTuple(vars)) == Success(vars);
    var cn := CombinedNames(vars);
    assert cn.Success? && |cn.value| == 2;
    assert cn.value == [x, y];
    assert CoordNames(2, Some(vc)) == Success([x, y]);
    CoordStringsTwo(e1, e2, x, y, fmt, pyStr, s1, s2);
    JoinTwo(s1, s2, join);
  }

  /** The examples' format with names from a combined variable. */
  lemma CellToStringCombinedExample(e1: (real, real), e2: (real, real), x: string, y: string, join: string,
                                    pyStr: Val -> string)
    ensures CellToString([e1, e2], Some(map["combine" := VTuple([VDict(map["name" := VStr(x)]), VDict(map["name" := VStr(y)])])]),
                         None, CoordFmt, join, false, pyStr)
            == Success(Named(e1, x, pyStr) + join + Named(e2, y, pyStr))
  {
    CoordStringExample(e1, x, pyStr);
    CoordStringExample(e2, y, pyStr);
    CellToStringCombined(e1, e2, VStr(x), VStr(y), CoordFmt, join, pyStr, Named(e1, x, pyStr), Named(e2, y, pyStr));
  }

  // ------------------------------------------------------------------
  // The example bin

  /** What `get_example_bin` is given: a histogram of a dimension, or
      nested bins. */
  datatype BinsSource<T> = HistogramBins(dim: nat, hbins: Mesh<T>) | PlainBins(bins: Mesh<T>)

  /** The first cell found by always descending into the first sub-bins;
      empty sub-bins raise IndexError. */
  function FirstCell<T>(m: Mesh<T>): (r: Result<Mesh<T>>)
    ensures r.Success? ==> r.value.Cell?
    ensures r.Failure? ==> r.error == PyIndexError
  {
    match m
    case Cell(_) => Success(m)
    case Cells(items) => if |items| == 0 then Failure(PyIndexError) else FirstCell(items[0])
  }

  /** `get_example_bin(struct)`: the bin at index zero on every axis of a
      histogram, or the first cell of nested bins. */
  function ExampleBin<T>(struct: BinsSource<T>): Result<Mesh<T>>
  {
    match struct
    case HistogramBins(dim, bins) => BinOnIndex(Repeat(0, dim), bins)
    case PlainBins(bins) => FirstCell(bins)
  }

  /** The loop of `get_example_bin` on nested bins. */
  method GetExampleBin<T>(struct: BinsSource<T>) returns (r: Result<Mesh<T>>)
    ensures r == ExampleBin(struct)
  {
    if struct.HistogramBins? {
      r := GetBinOnIndex(Indices(Repeat(0, struct.dim)), struct.hbins);
      return;
    }
    var bins := struct.bins;
    while bins.Cells?
      invariant FirstCell(struct.bins) == FirstCell(bins)
      decreases bins
    {
      if |bins.items| == 0 {
        return Failure(PyIndexError);
      }
      bins := bins.items[0];
    }
    return Success(bins);
  }

  /** On bins of a shape without empty axes both ways agree: the first
      cell is the one at index zero. */
  lemma {:induction false} FirstCellAtZero<T>(m: Mesh<T>, sizes: seq<nat>)
    requires HasShape(m, sizes) && forall c :: 0 <= c < |sizes| ==> sizes[c] > 0
    ensures ExampleBin(PlainBins(m)) == ExampleBin(HistogramBins(|sizes|, m))
    ensures ExampleBin(PlainBins(m)).Success?
    decreases |sizes|
  {
    if |sizes| > 0 {
      assert forall c :: 0 <= c < |sizes| - 1 ==> sizes[1..][c] == sizes[c + 1];
      FirstCellAtZero(m.items[0], sizes[1..]);
      assert Repeat(0, |sizes|)[1..] == Repeat(0, |sizes| - 1);
    }
  }

  /** The example of `get_example_bin`: zero, from the bins and from a
      two-dimensional histogram with them. */
  lemma ExampleBinExample()
    ensures var bins := Cells([Cells([Cell(0.0), Cell(1.0)]), Cells([Cell(1.0), Cell(1.0)])]);
            ExampleBin(PlainBins(bins)) == Success(Cell(0.0))
            && ExampleBin(HistogramBins(2, bins)) == Success(Cell(0.0))
  {
    assert Repeat(0, 2) == [0, 0];
  }

  // ------------------------------------------------------------------
  // SplitIntoBins

  /** What happens to the bins when a value is filled. */
  datatype Filled<T> = Ignored | FilledCell(bins: Mesh<T>)

  /** The walk of `SplitIntoBins.fill` along *index*: true when it ends,
      false when a negative entry (underflow) or an entry past the end
      (overflow) returns early; subscripting a cell raises TypeError. */
  function Reach<T>(m: Mesh<T>, index: seq<int>): (r: Result<bool>)
    ensures r == Success(true) ==> ValidPath(m, index)
    decreases |index|
  {
    if |index| == 0 then Success(true)
    else if index[0] < 0 then Success(false)
    else if m.Cell? then Failure(PyTypeError)
    else if index[0] >= |m.items| then Success(false)
    else Reach(m.items[index[0]], index[1..])
  }

  /** On bins of a known shape, an index with an entry per axis is walked
      to its end exactly when every entry is in range. */
  lemma {:induction false} ReachShaped<T>(m: Mesh<T>, index: seq<int>, sizes: seq<nat>)
    requires HasShape(m, sizes) && |index| == |sizes|
    ensures Reach(m, index) == Success(InRange(index, sizes))
    decreases |index|
  {
    if |index| > 0 {
      var tail := index[1..];
      assert InRange(index, sizes) <==> 0 <= index[0] < sizes[0] && InRange(tail, sizes[1..]) by {
        assert forall c :: 1 <= c < |index| ==> tail[c - 1] == index[c] && sizes[1..][c - 1] == sizes[c];
      }
      if 0 <= index[0] < sizes[0] {
        ReachShaped(m.items[index[0]], tail, sizes[1..]);
      }
    }
  }

  /** A valid path into bins of a known shape is no longer than the
      dimension and leads to bins of the remaining shape. */
  lemma {:induction false} PathShape<T>(m: Mesh<T>, path: seq<int>, sizes: seq<nat>)
    requires HasShape(m, sizes) && ValidPath(m, path)
    ensures |path| <= |sizes| && HasShape(MeshAt(m, path), sizes[|path|..])
    decreases |path|
  {
    if |path| > 0 {
      PathShape(m.items[path[0]], path[1..], sizes[1..]);
      assert sizes[1..][|path| - 1..] == sizes[|path|..];
    }
  }

  /** Filling the cell at *index* with *val*: nothing when the walk
      returns early; otherwise the sequence's `fill` runs on the state
      kept in that cell (a list of bins has no `fill`). */
  function FillAt(m: Mesh<Store>, index: seq<int>, seqEl: Element, val: Val): (r: Result<Filled<Store>>)
    // only a cell on the path is filled, by the sequence's fill on its state
    ensures r.Success? && r.value.FilledCell? ==>
              ValidPath(m, index) && MeshAt(m, index).Cell? &&
              var res := Invoke(seqEl, MeshAt(m, index).v, "fill", [val]);
              res.Success? && r.value.bins == Replace(m, index, Cell(res.value.0))
  {
    var reached :- Reach(m, index);
    if !reached then Success(Ignored)
    else
      var target := MeshAt(m, index);
      if target.Cells? then Failure(PyAttributeError)
      else
        var (st, _) :- Invoke(seqEl, target.v, "fill", [val]);
        Success(FilledCell(Replace(m, index, Cell(st))))
  }

  /** `SplitIntoBins.fill(val)` on the bins: the variable's getter on the
      data gives the point, whose bin index is found on the edges, and
      the cell there is filled. */
  function SplitFill(bins: Mesh<Store>, edges: Edges, getter: Getter, seqEl: Element, val: Val)
    : (r: Result<Filled<Store>>)
    requires SortedEdges(edges)
    // the getter's and the bin search's errors are raised
    ensures r.Success? ==> getter(GetData(val)).Success? && BinOnValue(getter(GetData(val)).value, edges).Success?
    // only the cell of the value's bin is filled
    ensures r.Success? && r.value.FilledCell? ==>
              var index := BinOnValue(getter(GetData(val)).value, edges).value;
              ValidPath(bins, index) && MeshAt(bins, index).Cell? &&
              var res := Invoke(seqEl, MeshAt(bins, index).v, "fill", [val]);
              res.Success? && r.value.bins == Replace(bins, index, Cell(res.value.0))
  {
    var arg :- getter(GetData(val));
    var index :- BinOnValue(arg, edges);
    FillAt(bins, index, seqEl, val)
  }

  /** On bins of the edges' shape, a value whose index has an entry out of
      range is ignored; one inside fills exactly its cell, with the
      sequence's fill on that cell's state, and keeps the shape. */
  lemma FillAtShaped(m: Mesh<Store>, index: seq<int>, sizes: seq<nat>, seqEl: Element, val: Val)
    requires HasShape(m, sizes) && |index| == |sizes|
    ensures !InRange(index, sizes) ==> FillAt(m, index, seqEl, val) == Success(Ignored)
    ensures InRange(index, sizes) ==>
              ValidPath(m, index) && MeshAt(m, index).Cell?
              && var res := Invoke(seqEl, MeshAt(m, index).v, "fill", [val]);
              (FillAt(m, index, seqEl, val).Success? <==> res.Success?)
              && (res.Success? ==>
                    FillAt(m, index, seqEl, val) == Success(FilledCell(Replace(m, index, Cell(res.value.0))))
                    && HasShape(Replace(m, index, Cell(res.value.0)), sizes)
                    && ValidPath(Replace(m, index, Cell(res.value.0)), index)
                    && MeshAt(Replace(m, index, Cell(res.value.0)), index) == Cell(res.value.0)
                    && forall other :: ValidPath(m, other) && |other| == |index| && other != index ==>
                         ValidPath(Replace(m, index, Cell(res.value.0)), other)
                         && MeshAt(Replace(m, index, Cell(res.value.0)), other) == MeshAt(m, other))
  {
    ReachShaped(m, index, sizes);
    if InRange(index, sizes) {
      InRangePath(m, index, sizes);
      var res := Invoke(seqEl, MeshAt(m, index).v, "fill", [val]);
      if res.Success? {
        var x := Cell(res.value.0);
        ReplaceKeepsShape(m, index, x, sizes);
        ReplaceThenAt(m, index, x);
        forall other | ValidPath(m, other) && |other| == |index| && other != index
          ensures ValidPath(Replace(m, index, x), other) && MeshAt(Replace(m, index, x), other) == MeshAt(m, other)
        {
          ReplaceElsewhere(m, index, x, other);
        }
      }
    }
  }

  /** The walk of `SplitIntoBins.fill`, one entry of the index at a time. */
  method WalkIndex<T>(m: Mesh<T>, index: seq<int>) returns (r: Result<bool>, target: Mesh<T>)
    ensures r == Reach(m, index)
    ensures r == Success(true) ==> target == MeshAt(m, index)
  {
    var subarr := m;
    var i := 0;
    while i < |index|
      invariant 0 <= i <= |index|
      invariant Reach(m, index) == Reach(subarr, index[i..])
      invariant Reach(subarr, index[i..]) == Success(true) ==>
                  ValidPath(subarr, index[i..]) && MeshAt(m, index) == MeshAt(subarr, index[i..])
    {
      var ind := index[i];
      if ind < 0 {
        return Success(false), subarr;
      }
      if subarr.Cell? {
        return Failure(PyTypeError), subarr;
      }
      if ind >= |subarr.items| {
        return Success(false), subarr;
      }
      assert index[i..][1..] == index[i + 1..];
      subarr := subarr.items[ind];
      i := i + 1;
    }
    assert index[i..] == [];
    return Success(true), subarr;
  }

  /** The sequence of `SplitIntoBins(seq, ...)`: a FillComputeSeq as it
      is, anything else made into one (LenaTypeError when that fails). */
  function AsFillComputeSeq(s: Element, nextId: nat): (r: Result<(Element, nat)>)
    ensures s.FillComputeSeq? ==> r == Success((s, nextId))
    ensures r.Success? ==> r.value.0.FillComputeSeq?
    ensures r.Failure? ==> r.error == LenaTypeError
  {
    if s.FillComputeSeq? then Success((s, nextId))
    else MakeFillComputeSeq([s], nextId)
  }

  /** `SplitIntoBins.__init__(seq, arg_var, edges)` on values: the
      sequence, the variable, and bins of the edges' shape each holding
      the sequence's state *st* (a copy per bin). A sequence that cannot
      be made a FillComputeSeq and an argument that is not a variable
      raise LenaTypeError, edges that do not increase LenaValueError. */
  function SplitInit(s: Element, argVar: VarArg, edges: Edges, st: Store, nextId: nat)
    : (r: Result<(Element, Variable, Mesh<Store>)>)
    ensures AsFillComputeSeq(s, nextId).Failure? ==> r == Failure(LenaTypeError)
    ensures AsFillComputeSeq(s, nextId).Success? && argVar.NotVariable? ==> r == Failure(LenaTypeError)
    ensures AsFillComputeSeq(s, nextId).Success? && argVar.IsVariable? ==>
              (r.Success? <==> ValidEdges(edges)) && (r.Failure? ==> r.error == LenaValueError)
    ensures r.Success? ==> r.value.0 == AsFillComputeSeq(s, nextId).value.0 && r.value.1 == argVar.v
                           && InitBins(edges, st) == Success(r.value.2)
                           && HasShape(r.value.2, Sizes(Unify1Md(r.value.2, edges).1))
  {
    var (fcs, _) :- AsFillComputeSeq(s, nextId);
    if argVar.NotVariable? then Failure(LenaTypeError)
    else
      var _ :- CheckEdgesIncreasing(edges);
      Success((fcs, argVar.v, InitBins(edges, st).value))
  }

  /** `SplitIntoBins`: a sequence, the variable giving the bin of a value,
      the edges, and the nested bins, each holding the state of its own
      copy of the sequence. */
  class SplitIntoBins {
    const seqEl: Element
    const argVar: Variable
    const edges: Edges
    var bins: Mesh<Store>
    var curContext: Dict

    /** Increasing edges and bins of their shape. */
    predicate Valid()
      reads this
    {
      ValidEdges(edges) && HasShape(bins, Sizes(Unify1Md(bins, edges).1))
    }

    constructor (seqEl: Element, argVar: Variable, edges: Edges, bins: Mesh<Store>)
      requires ValidEdges(edges) && HasShape(bins, Sizes(Unify1Md(bins, edges).1))
      ensures Valid()
      ensures this.seqEl == seqEl && this.argVar == argVar && this.edges == edges && this.bins == bins
      ensures curContext == map[]
    {
      this.seqEl := seqEl;
      this.argVar := argVar;
      this.edges := edges;
      this.bins := bins;
      curContext := map[];
    }

    /** `SplitIntoBins(seq, arg_var, edges)`, raising what `__init__`
        raises. */
    static method New(s: Element, argVar: VarArg, edges: Edges, st: Store, nextId: nat) returns (r: Result<SplitIntoBins>)
      ensures r.Failure? <==> SplitInit(s, argVar, edges, st, nextId).Failure?
      ensures r.Failure? ==> r.error == SplitInit(s, argVar, edges, st, nextId).error
      ensures r.Success? ==> var v := SplitInit(s, argVar, edges, st, nextId).value;
                             fresh(r.value) && r.value.Valid()
                             && r.value.seqEl == v.0 && r.value.argVar == v.1 && r.value.edges == edges
                             && r.value.bins == v.2 && r.value.curContext == map[]
    {
      var init := SplitInit(s, argVar, edges, st, nextId);
      if init.Failure? {
        return Failure(init.error);
      }
      var sib := new SplitIntoBins(init.value.0, init.value.1, edges, init.value.2);
      return Success(sib);
    }

    /** `fill(val)`: the cell for the value's bin is filled with the value
        and the current context becomes the value's; a value outside the
        edges is ignored, and errors leave everything as it was. */
    method Fill(val: Val) returns (r: Result<()>)
      requires Valid()
      modifies this
      ensures Valid()
      ensures var res := SplitFill(old(bins), edges, argVar.getter, seqEl, val);
              (r.Success? <==> res.Success?)
              && (r.Failure? ==> r.error == res.error)
              && (res.Success? && res.value.FilledCell? ==> bins == res.value.bins && curContext == GetContext(val))
              && (!(res.Success? && res.value.FilledCell?) ==> bins == old(bins) && curContext == old(curContext))
    {
      var data := GetData(val);
      var arg := argVar.getter(data);
      if arg.Failure? {
        return Failure(arg.error);
      }
      var found := GetBinOnValue(arg.value, edges);
      if found.Failure? {
        return Failure(found.error);
      }
      var index := found.value;
      var reached, target := WalkIndex(bins, index);
      if reached.Failure? {
        return Failure(reached.error);
      }
      if !reached.value {
        return Success(());
      }
      if target.Cells? {
        return Failure(PyAttributeError);
      }
      var res := Invoke(seqEl, target.v, "fill", [val]);
      if res.Failure? {
        return Failure(res.error);
      }
      FillKeepsShape(bins, edges, index, Cell(res.value.0));
      bins := Replace(bins, index, Cell(res.value.0));
      curContext := GetContext(val);
      return Success(());
    }
  }

  /** Filling a cell reached by a walk keeps the bins' shape. */
  lemma FillKeepsShape(m: Mesh<Store>, edges: Edges, index: seq<int>, x: Mesh<Store>)
    requires HasShape(m, Sizes(Unify1Md(m, edges).1)) && ValidPath(m, index) && MeshAt(m, index).Cell? && x.Cell?
    ensures HasShape(Replace(m, index, x), Sizes(Unify1Md(Replace(m, index, x), edges).1))
  {
    var sizes := Sizes(Unify1Md(m, edges).1);
    PathShape(m, index, sizes);
    ReplaceKeepsShape(m, index, x, sizes);
  }
}
