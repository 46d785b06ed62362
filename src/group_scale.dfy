// `GroupScale` (lena/flow/group_scale.py): a group of structures scaled
// to a number or to the scale of one selected item.

module FlowGroupScale {
  import opened Wrappers
  import opened Values
  import opened FlowFunctions
  import opened Selectors

  /** What the structures are scaled to. */
  datatype ScaleTo = ToNumber(x: Val) | ToSelected(sel: Selector)

  /** The `scale_to` argument: a number, or anything a `Selector` is made
      from. */
  datatype ScaleToArg = NumberArg(x: Val) | SelectArg(arg: SelectorArg)

  datatype GroupScale = GroupScale(scaleTo: ScaleTo, allowZero: bool, allowUnknown: bool)

  /** A structure's `scale` method: `current(data)` is `data.scale()`, and
      `rescale(data, s)` is `data.scale(s)`, the rescaled structure. Either may
      raise; a missing method raises AttributeError. */
  datatype ScaleOps = ScaleOps(current: Val -> Result<Val>, rescale: (Val, Val) -> Result<Val>)

  /** `GroupScale.__init__`: a number is kept, anything else becomes a
      `Selector` (which may raise LenaTypeError). */
  function MakeGroupScale(arg: ScaleToArg, allowZero: bool, allowUnknown: bool): (r: Result<GroupScale>)
    ensures arg.NumberArg? ==> r == Success(GroupScale(ToNumber(arg.x), allowZero, allowUnknown))
    ensures arg.SelectArg? ==> (r.Success? <==> Make(arg.arg).Success?)
    ensures arg.SelectArg? && r.Success? ==> r.value == GroupScale(ToSelected(Make(arg.arg).value), allowZero, allowUnknown)
    ensures r.Failure? ==> r.error == LenaTypeError
  {
    match arg
    case NumberArg(x) => Success(GroupScale(ToNumber(x), allowZero, allowUnknown))
    case SelectArg(a) =>
      var sel :- Make(a);
      Success(GroupScale(ToSelected(sel), allowZero, allowUnknown))
  }

  /** `[val for val in group if select(val)]`. */
  function Candidates(sel: Selector, group: seq<Val>): (r: seq<Val>)
    ensures |r| <= |group|
    ensures forall v :: v in r <==> v in group && Selected(sel, v)
  {
    if |group| == 0 then []
    else (if Selected(sel, group[0]) then [group[0]] else []) + Candidates(sel, group[1..])
  }

  /** The scale to use: the number given, or the scale of the one selected
      item; none or several selected raise LenaValueError. */
  function ScaleOf(gs: GroupScale, ops: ScaleOps, group: seq<Val>): (r: Result<Val>)
    ensures gs.scaleTo.ToNumber? ==> r == Success(gs.scaleTo.x)
    ensures gs.scaleTo.ToSelected? && |Candidates(gs.scaleTo.sel, group)| != 1 ==> r == Failure(LenaValueError)
    ensures gs.scaleTo.ToSelected? && |Candidates(gs.scaleTo.sel, group)| == 1 ==>
              exists v :: v in group && Selected(gs.scaleTo.sel, v) && r == ops.current(GetData(v))
  {
    match gs.scaleTo
    case ToNumber(x) => Success(x)
    case ToSelected(sel) =>
      var cands := Candidates(sel, group);
      if |cands| > 1 then Failure(LenaValueError)
      else if |cands| == 0 then Failure(LenaValueError)
      else
        assert cands[0] in cands;
        ops.current(GetData(cands[0]))
  }

  predicate IsAttributeError(e: Error)
  {
    e == PyAttributeError || e == LenaAttributeError
  }

  /** One item rescaled: `(data.scale(scale), context)`. An AttributeError
      (the scale is unknown) and a LenaValueError (the scale is zero) keep
      the data when the corresponding option allows it; an unknown scale
      otherwise raises LenaValueError, and any other error propagates. */
  function RescaleOne(gs: GroupScale, ops: ScaleOps, scale: Val, val: Val): (r: Result<Val>)
    ensures r.Success? ==> HasContext(r.value) && GetContext(r.value) == GetContext(val)
    ensures ops.rescale(GetData(val), scale).Success? ==> r == Success(Pair(ops.rescale(GetData(val), scale).value, GetContext(val)))
    ensures ops.rescale(GetData(val), scale).Failure? ==>
              var e := ops.rescale(GetData(val), scale).error;
              (IsAttributeError(e) ==> r == if gs.allowUnknown then Success(Pair(GetData(val), GetContext(val))) else Failure(LenaValueError))
              && (e == LenaValueError ==> r == if gs.allowZero then Success(Pair(GetData(val), GetContext(val))) else Failure(LenaValueError))
              && (!IsAttributeError(e) && e != LenaValueError ==> r == Failure(e))
  {
    var (data, context) := GetDataContext(val);
    match ops.rescale(data, scale)
    case Success(newData) => Success(Pair(newData, context))
    case Failure(e) =>
      if IsAttributeError(e) then
        if gs.allowUnknown then Success(Pair(data, context)) else Failure(LenaValueError)
      else if e == LenaValueError then
        if gs.allowZero then Success(Pair(data, context)) else Failure(e)
      else Failure(e)
  }

  /** Every item rescaled, the first error raised. */
  function RescaleAll(gs: GroupScale, ops: ScaleOps, scale: Val, group: seq<Val>): (r: Result<seq<Val>>)
  {
    if |group| == 0 then Success([])
    else
      var first :- RescaleOne(gs, ops, scale, group[0]);
      var rest :- RescaleAll(gs, ops, scale, group[1..]);
      Success([first] + rest)
  }

  /** `GroupScale.scale(group)`, as a function of the group. */
  function ScaleGroup(gs: GroupScale, ops: ScaleOps, group: seq<Val>): Result<seq<Val>>
  {
    var scale :- ScaleOf(gs, ops, group);
    RescaleAll(gs, ops, scale, group)
  }

  /** The loop of `GroupScale.scale`. */
  method Scale(gs: GroupScale, ops: ScaleOps, group: seq<Val>) returns (r: Result<seq<Val>>)
    ensures r == ScaleGroup(gs, ops, group)
  {
    var sc := ScaleOf(gs, ops, group);
    if sc.Failure? {
      return Failure(sc.error);
    }
    var scale := sc.value;
    var newGroup: seq<Val> := [];
    var i := 0;
    assert group[0..] == group;
    var whole := RescaleAll(gs, ops, scale, group);
    if whole.Success? {
      assert newGroup + whole.value == whole.value;
    }
    while i < |group|
      invariant 0 <= i <= |group|
      invariant RescaleAll(gs, ops, scale, group) ==
                (var rest :- RescaleAll(gs, ops, scale, group[i..]); Success(newGroup + rest))
    {
      assert group[i..][1..] == group[i + 1..];
      var one := RescaleOne(gs, ops, scale, group[i]);
      if one.Failure? {
        return Failure(one.error);
      }
      var rest := RescaleAll(gs, ops, scale, group[i + 1..]);
      if rest.Success? {
        assert newGroup + ([one.value] + rest.value) == (newGroup + [one.value]) + rest.value;
      }
      newGroup := newGroup + [one.value];
      i := i + 1;
    }
    assert group[i..] == [];
    assert newGroup + [] == newGroup;
    return Success(newGroup);
  }

  /** The group is rescaled item by item: it succeeds when every item
      does, keeps the order and every item's context, and pairs each
      structure with its context. */
  lemma {:induction false} RescaleAllItems(gs: GroupScale, ops: ScaleOps, scale: Val, group: seq<Val>)
    ensures RescaleAll(gs, ops, scale, group).Success? <==>
              forall k :: 0 <= k < |group| ==> RescaleOne(gs, ops, scale, group[k]).Success?
    ensures RescaleAll(gs, ops, scale, group).Success? ==>
              var out := RescaleAll(gs, ops, scale, group).value;
              |out| == |group|
              && forall k :: 0 <= k < |group| ==>
                   out[k] == RescaleOne(gs, ops, scale, group[k]).value
                   && HasContext(out[k]) && GetContext(out[k]) == GetContext(group[k])
    decreases |group|
  {
    if |group| > 0 {
      RescaleAllItems(gs, ops, scale, group[1..]);
      assert forall k :: 1 <= k < |group| ==> group[1..][k - 1] == group[k];
      if RescaleOne(gs, ops, scale, group[0]).Success? {
        var first := RescaleOne(gs, ops, scale, group[0]).value;
        assert HasContext(first) && GetContext(first) == GetContext(group[0]);
      }
    }
  }

  /** With both options set, a group whose structures either rescale or
      raise only AttributeError or LenaValueError is always rescaled: each
      item holds the new structure, or the old one where rescaling failed. */
  lemma Tolerant(gs: GroupScale, ops: ScaleOps, scale: Val, group: seq<Val>)
    requires gs.allowZero && gs.allowUnknown
    requires forall k :: 0 <= k < |group| ==>
               ops.rescale(GetData(group[k]), scale).Success?
               || IsAttributeError(ops.rescale(GetData(group[k]), scale).error)
               || ops.rescale(GetData(group[k]), scale).error == LenaValueError
    ensures RescaleAll(gs, ops, scale, group).Success?
    ensures |RescaleAll(gs, ops, scale, group).value| == |group|
    ensures forall k :: 0 <= k < |group| ==>
              var d := GetData(RescaleAll(gs, ops, scale, group).value[k]);
              d == GetData(group[k]) || (ops.rescale(GetData(group[k]), scale).Success? && d == ops.rescale(GetData(group[k]), scale).value)
  {
    RescaleAllItems(gs, ops, scale, group);
  }

  lemma RescaleSingle(gs: GroupScale, ops: ScaleOps, scale: Val, v: Val)
    ensures RescaleAll(gs, ops, scale, [v]) == (var x :- RescaleOne(gs, ops, scale, v); Success([x]))
  {
    assert [v][1..] == [];
    var one := RescaleOne(gs, ops, scale, v);
    if one.Success? {
      assert RescaleAll(gs, ops, scale, [v][1..]) == Success([]);
      assert [one.value] + [] == [one.value];
    }
  }

  // ------------------------------------------------------------------
  // Histograms with a `scale` attribute.

  /** A histogram whose scale is known. */
  function Hist(scale: int): Val
  {
    VObj("Histogram", map["scale" := VInt(scale)])
  }

  /** `hist.scale()`: its scale, AttributeError for anything else. */
  function GetScale(d: Val): Result<Val>
  {
    if d.VObj? && "scale" in d.attrs then Success(d.attrs["scale"]) else Failure(PyAttributeError)
  }

  /** `hist.scale(s)`: a histogram of zero scale raises LenaValueError. */
  function SetScale(d: Val, s: Val): Result<Val>
  {
    if !d.VObj? || "scale" !in d.attrs then Failure(PyAttributeError)
    else if d.attrs["scale"] == VInt(0) then Failure(LenaValueError)
    else Success(VObj(d.cls, d.attrs["scale" := s]))
  }

  const HistOps := ScaleOps(GetScale, SetScale)

  /** Scaling two histograms to the one whose context holds "data"
      (for instance of scales 4 and 2): both get its scale. */
  lemma ScaleToSelectedExample(n: int, m: int)
    requires n != 0 && m != 0
    ensures
      var data := Pair(Hist(n), map["data" := VBool(true)]);
      var mc := Pair(Hist(m), map[]);
      var gs := GroupScale(ToSelected(ByContext("data")), false, false);
      ScaleGroup(gs, HistOps, [data, mc]) == Success([data, Pair(Hist(n), map[])])
  {
    var data := Pair(Hist(n), map["data" := VBool(true)]);
    var mc := Pair(Hist(m), map[]);
    var sel := ByContext("data");
    var gs := GroupScale(ToSelected(sel), false, false);
    assert Selected(sel, data) && !Selected(sel, mc);
    assert [data, mc][1..] == [mc] && [mc][1..] == [];
    assert Candidates(sel, [data, mc]) == [data];
    assert ScaleOf(gs, HistOps, [data, mc]) == Success(VInt(n));
    HistRescaled(n, n);
    HistRescaled(m, n);
    RescaleTwo(gs, HistOps, VInt(n), data, mc);
  }

  /** A histogram of non-zero scale rescaled to *s* is the histogram of
      scale *s*. */
  lemma HistRescaled(m: int, s: int)
    requires m != 0
    ensures SetScale(Hist(m), VInt(s)) == Success(Hist(s))
  {
    assert map["scale" := VInt(m)]["scale" := VInt(s)] == map["scale" := VInt(s)];
  }

  /** Two items are rescaled one after the other. */
  lemma RescaleTwo(gs: GroupScale, ops: ScaleOps, scale: Val, a: Val, b: Val)
    ensures RescaleAll(gs, ops, scale, [a, b])
            == (var x :- RescaleOne(gs, ops, scale, a); var y :- RescaleOne(gs, ops, scale, b); Success([x, y]))
  {
    assert [a, b][1..] == [b];
    RescaleSingle(gs, ops, scale, b);
    var x := RescaleOne(gs, ops, scale, a);
    var y := RescaleOne(gs, ops, scale, b);
    if x.Success? && y.Success? {
      assert [x.value] + [y.value] == [x.value, y.value];
    }
  }

  /** A zero-scale item raises unless zero scale is allowed, and a
      non-structure raises unless unknown scale is allowed; no item
      selected raises LenaValueError. */
  lemma ScaleErrorsExample()
    ensures
      var zero := Pair(Hist(0), map[]);
      ScaleGroup(GroupScale(ToNumber(VInt(1)), false, false), HistOps, [zero]) == Failure(LenaValueError)
      && ScaleGroup(GroupScale(ToNumber(VInt(1)), true, false), HistOps, [zero]) == Success([zero])
    ensures ScaleGroup(GroupScale(ToNumber(VInt(1)), false, false), HistOps, [VInt(3)]) == Failure(LenaValueError)
    ensures ScaleGroup(GroupScale(ToNumber(VInt(1)), false, true), HistOps, [VInt(3)]) == Success([Pair(VInt(3), map[])])
    ensures ScaleGroup(GroupScale(ToSelected(ByContext("data")), true, true), HistOps, [VInt(3)]) == Failure(LenaValueError)
  {
    var zero := Pair(Hist(0), map[]);
    RescaleSingle(GroupScale(ToNumber(VInt(1)), false, false), HistOps, VInt(1), zero);
    RescaleSingle(GroupScale(ToNumber(VInt(1)), true, false), HistOps, VInt(1), zero);
    RescaleSingle(GroupScale(ToNumber(VInt(1)), false, false), HistOps, VInt(1), VInt(3));
    RescaleSingle(GroupScale(ToNumber(VInt(1)), false, true), HistOps, VInt(1), VInt(3));
    assert [VInt(3)][1..] == [];
    assert SetScale(Hist(0), VInt(1)) == Failure(LenaValueError);
    assert SetScale(VInt(3), VInt(1)) == Failure(PyAttributeError);
    assert RescaleOne(GroupScale(ToNumber(VInt(1)), true, false), HistOps, VInt(1), zero) == Success(zero);
    assert RescaleOne(GroupScale(ToNumber(VInt(1)), false, true), HistOps, VInt(1), VInt(3)) == Success(Pair(VInt(3), map[]));
    assert !Selected(ByContext("data"), VInt(3));
    assert Candidates(ByContext("data"), [VInt(3)]) == [];
  }
}
