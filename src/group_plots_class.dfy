// `GroupPlots` (lena/flow/group_plots.py): selected values collected into
// groups, which are scaled, transformed and yielded after the flow ends.

module FlowGroupPlotsClass {
  import opened Wrappers
  import opened Values
  import opened FlowFunctions
  import opened Selectors
  import opened CoreElements
  import opened CoreRun
  import opened CoreBuild
  import opened CoreLoops
  import opened FlowGroupBy
  import opened FlowGroupScale
  import opened FlowSeqMap
  import opened FlowGroupPlots
  import CoreLaws

  /** The *select* argument: None (everything), a Selector, or what a
      Selector is made from. */
  datatype SelectInit = SelectAll | SelectGiven(sel: Selector) | SelectArgument(arg: SelectorArg)

  /** The *scale* argument: None, a GroupScale, or what one is made from. */
  datatype ScaleInit = NoScale | ScaleGiven(gs: GroupScale) | ScaleArgument(arg: ScaleToArg)

  /** The *transform* argument: a LenaSequence, used as it is, or the
      elements of a new Sequence. */
  datatype TransformInit = TransformSequence(sq: Element) | TransformElements(els: seq<Element>)

  /** The *group_by* argument: a GroupBy, shared as it is, or what one is
      made from. */
  datatype GroupByInit = GroupByGiven(g: GroupBy) | GroupByArgument(arg: GroupByArg)

  /** What `GroupPlots` keeps besides its GroupBy. */
  datatype Config = Config(select: Option<Selector>, scale: Option<GroupScale>, transform: Element, yieldSelected: bool)

  /** `GroupPlots.__init__` apart from *group_by*: every argument that is
      not already of its class is converted, and a conversion that fails
      raises LenaTypeError. A scale made here allows neither zero nor
      unknown scales. */
  function MakeConfig(select: SelectInit, scale: ScaleInit, transform: TransformInit, yieldSelected: bool, nextId: nat)
    : (r: Result<(Config, nat)>)
    ensures r.Success? <==>
              (select.SelectArgument? ==> Make(select.arg).Success?)
              && (scale.ScaleArgument? ==> MakeGroupScale(scale.arg, false, false).Success?)
              && (transform.TransformElements? ==> MakeSequence(transform.els, nextId).Success?)
    ensures r.Failure? ==> r.error == LenaTypeError
    ensures r.Success? ==>
              var cfg := r.value.0;
              (cfg.select.None? <==> select.SelectAll?)
              && (select.SelectGiven? ==> cfg.select == Some(select.sel))
              && (select.SelectArgument? ==> cfg.select == Some(Make(select.arg).value))
              && (cfg.scale.None? <==> scale.NoScale?)
              && (scale.ScaleGiven? ==> cfg.scale == Some(scale.gs))
              && (scale.ScaleArgument? ==> cfg.scale == Some(MakeGroupScale(scale.arg, false, false).value))
              && (transform.TransformSequence? ==> cfg.transform == transform.sq)
              && (transform.TransformElements? ==> cfg.transform.Sequence?)
              && cfg.yieldSelected == yieldSelected
  {
    var sel :- match select
               case SelectAll => Success(None)
               case SelectGiven(s) => Success(Some(s))
               case SelectArgument(a) => var s :- Make(a); Success(Some(s));
    var gs :- match scale
              case NoScale => Success(None)
              case ScaleGiven(g) => Success(Some(g))
              case ScaleArgument(a) => var g :- MakeGroupScale(a, false, false); Success(Some(g));
    var (tr, next) :- match transform
                      case TransformSequence(sq) => Success((sq, nextId))
                      case TransformElements(els) => MakeSequence(els, nextId);
    Success((Config(sel, gs, tr, yieldSelected), next))
  }

  /** Whether a value is selected: everything is when *select* is None. */
  predicate Selects(cfg: Config, val: Val)
  {
    cfg.select.None? || Selected(cfg.select.value, val)
  }

  // ------------------------------------------------------------------
  // The pass over the flow

  /** The state after the flow (or up to the first error): what was
      yielded, the keys and groups of the GroupBy, and the error raised. */
  datatype Passed = Passed(outs: seq<Val>, keys: seq<Val>, groups: map<Val, seq<Val>>, error: Option<Error>)

  function Prefixed(pre: seq<Val>, p: Passed): Passed
  {
    p.(outs := pre + p.outs)
  }

  lemma PrefixedNothing(p: Passed)
    ensures Prefixed([], p) == p
  {
    assert [] + p.outs == p.outs;
  }

  lemma PrefixedTwice(a: seq<Val>, b: seq<Val>, p: Passed)
    ensures Prefixed(a, Prefixed(b, p)) == Prefixed(a + b, p)
  {
    assert a + (b + p.outs) == (a + b) + p.outs;
  }

  /** The loop over *flow* in `GroupPlots.run`: a selected value is added
      to its group (after its copy is yielded, with *yield_selected*); any
      other value is yielded. A key that cannot be computed ends the pass. */
  function Pass(cfg: Config, kf: KeyFn, keys: seq<Val>, groups: map<Val, seq<Val>>, flow: seq<Val>): Passed
    decreases |flow|
  {
    if |flow| == 0 then Passed([], keys, groups, None)
    else if !Selects(cfg, flow[0]) then Prefixed([flow[0]], Pass(cfg, kf, keys, groups, flow[1..]))
    else
      var copy := if cfg.yieldSelected then [flow[0]] else [];
      var key := GroupKey(kf, flow[0]);
      if key.Failure? then Passed(copy, keys, groups, Some(key.error))
      else
        var (keys2, groups2) := Insert(keys, groups, key.value, flow[0]);
        Prefixed(copy, Pass(cfg, kf, keys2, groups2, flow[1..]))
  }

  /** The first value of a non-empty flow, as `Pass` treats it. */
  lemma PassFirst(cfg: Config, kf: KeyFn, keys: seq<Val>, groups: map<Val, seq<Val>>, flow: seq<Val>)
    requires |flow| > 0
    ensures !Selects(cfg, flow[0]) ==>
              Pass(cfg, kf, keys, groups, flow) == Prefixed([flow[0]], Pass(cfg, kf, keys, groups, flow[1..]))
    ensures Selects(cfg, flow[0]) && GroupKey(kf, flow[0]).Failure? ==>
              Pass(cfg, kf, keys, groups, flow)
                == Passed(if cfg.yieldSelected then [flow[0]] else [], keys, groups, Some(GroupKey(kf, flow[0]).error))
    ensures Selects(cfg, flow[0]) && GroupKey(kf, flow[0]).Success? ==>
              Pass(cfg, kf, keys, groups, flow)
                == Prefixed(if cfg.yieldSelected then [flow[0]] else [],
                            Pass(cfg, kf, Insert(keys, groups, GroupKey(kf, flow[0]).value, flow[0]).0,
                                 Insert(keys, groups, GroupKey(kf, flow[0]).value, flow[0]).1, flow[1..]))
  {
  }

  /** One pass of the loop of `GroupPlots.run`, after *outs* were yielded
      for the values before *i*. */
  lemma PassAdvance(cfg: Config, kf: KeyFn, whole: Passed, outs: seq<Val>, keys: seq<Val>,
                    groups: map<Val, seq<Val>>, flow: seq<Val>, i: nat)
    requires i < |flow|
    requires whole == Prefixed(outs, Pass(cfg, kf, keys, groups, flow[i..]))
    ensures !Selects(cfg, flow[i]) ==>
              whole == Prefixed(outs + [flow[i]], Pass(cfg, kf, keys, groups, flow[i + 1..]))
    ensures Selects(cfg, flow[i]) && GroupKey(kf, flow[i]).Failure? ==>
              whole.keys == keys && whole.groups == groups && whole.error == Some(GroupKey(kf, flow[i]).error)
    ensures Selects(cfg, flow[i]) && GroupKey(kf, flow[i]).Success? ==>
              whole == Prefixed(outs + (if cfg.yieldSelected then [flow[i]] else []),
                                Pass(cfg, kf, Insert(keys, groups, GroupKey(kf, flow[i]).value, flow[i]).0,
                                     Insert(keys, groups, GroupKey(kf, flow[i]).value, flow[i]).1, flow[i + 1..]))
  {
    var rest := flow[i..];
    assert rest[0] == flow[i] && rest[1..] == flow[i + 1..];
    PassFirst(cfg, kf, keys, groups, rest);
    var copy := if cfg.yieldSelected then [flow[i]] else [];
    if !Selects(cfg, flow[i]) {
      PrefixedTwice(outs, [flow[i]], Pass(cfg, kf, keys, groups, flow[i + 1..]));
    } else if GroupKey(kf, flow[i]).Success? {
      var (keys2, groups2) := Insert(keys, groups, GroupKey(kf, flow[i]).value, flow[i]);
      PrefixedTwice(outs, copy, Pass(cfg, kf, keys2, groups2, flow[i + 1..]));
    }
  }

  /** The selected values of a flow, in order. */
  function SelectedVals(cfg: Config, flow: seq<Val>): (r: seq<Val>)
    ensures |r| <= |flow|
    ensures forall v :: v in r ==> v in flow && Selects(cfg, v)
  {
    if |flow| == 0 then []
    else if Selects(cfg, flow[0]) then [flow[0]] + SelectedVals(cfg, flow[1..])
    else SelectedVals(cfg, flow[1..])
  }

  /** The values of a flow that are not selected, in order. */
  function UnselectedVals(cfg: Config, flow: seq<Val>): (r: seq<Val>)
    ensures |r| <= |flow|
    ensures forall v :: v in r ==> v in flow && !Selects(cfg, v)
  {
    if |flow| == 0 then []
    else if Selects(cfg, flow[0]) then UnselectedVals(cfg, flow[1..])
    else [flow[0]] + UnselectedVals(cfg, flow[1..])
  }

  /** A pass that raises nothing updates the groups exactly as adding the
      selected values to the GroupBy one by one, and it fails exactly when
      that does; it yields every value (selected ones as copies) with
      *yield_selected*, and only the unselected ones otherwise. */
  lemma {:induction false} PassGroups(cfg: Config, kf: KeyFn, keys: seq<Val>, groups: map<Val, seq<Val>>, flow: seq<Val>)
    ensures var p := Pass(cfg, kf, keys, groups, flow);
            (p.error.None? <==> AddAll(kf, keys, groups, SelectedVals(cfg, flow)).Success?)
            && (p.error.Some? ==> p.error.value == AddAll(kf, keys, groups, SelectedVals(cfg, flow)).error)
    ensures var p := Pass(cfg, kf, keys, groups, flow);
            p.error.None? ==>
              AddAll(kf, keys, groups, SelectedVals(cfg, flow)) == Success((p.keys, p.groups))
              && p.outs == (if cfg.yieldSelected then flow else UnselectedVals(cfg, flow))
    decreases |flow|
  {
    if |flow| > 0 {
      var v := flow[0];
      assert [v] + flow[1..] == flow;
      if !Selects(cfg, v) {
        PassGroups(cfg, kf, keys, groups, flow[1..]);
      } else if GroupKey(kf, v).Success? {
        var (keys2, groups2) := Insert(keys, groups, GroupKey(kf, v).value, v);
        PassGroups(cfg, kf, keys2, groups2, flow[1..]);
        assert ([v] + SelectedVals(cfg, flow[1..]))[1..] == SelectedVals(cfg, flow[1..]);
      }
    }
  }

  /** Nothing selected: the flow is yielded unchanged and the groups stay
      as they were. */
  lemma {:induction false} PassUnselected(cfg: Config, kf: KeyFn, keys: seq<Val>, groups: map<Val, seq<Val>>, flow: seq<Val>)
    requires forall i :: 0 <= i < |flow| ==> !Selects(cfg, flow[i])
    ensures Pass(cfg, kf, keys, groups, flow) == Passed(flow, keys, groups, None)
    decreases |flow|
  {
    if |flow| > 0 {
      PassUnselected(cfg, kf, keys, groups, flow[1..]);
      assert [flow[0]] + flow[1..] == flow;
    }
  }

  /** Groups are never cleared: a pass keeps every key already there in
      its place, and the groups then hold every selected value of this
      flow besides those of earlier runs. */
  lemma PassAccumulates(cfg: Config, kf: KeyFn, keys: seq<Val>, groups: map<Val, seq<Val>>, flow: seq<Val>)
    requires WellFormed(keys, groups)
    requires Pass(cfg, kf, keys, groups, flow).error.None?
    ensures var p := Pass(cfg, kf, keys, groups, flow);
            WellFormed(p.keys, p.groups)
            && |p.keys| >= |keys| && p.keys[..|keys|] == keys
            && Total(p.keys, p.groups) == Total(keys, groups) + |SelectedVals(cfg, flow)|
  {
    PassGroups(cfg, kf, keys, groups, flow);
    AddAllGrows(kf, keys, groups, SelectedVals(cfg, flow));
  }

  // ------------------------------------------------------------------
  // Yielding the groups

  /** One group after the flow: scaled (when a scale is set), each value
      run through *transform*, which must give exactly one value, and made
      one value by `group_plots`.
      This models the corrected call `self._scale.scale(grp)`; the program as written is `EmitGroupAsWritten`. */
  function EmitGroup(cfg: Config, ops: ScaleOps, st: Store, grp: seq<Val>): (r: Result<(Store, Val)>)
  {
    var scaled :- if cfg.scale.Some? then ScaleGroup(cfg.scale.value, ops, grp) else Success(grp);
    var (st1, mapped) :- SeqMap(cfg.transform, st, scaled, true);
    Success((st1, GroupPlotsOf(mapped.vals)))
  }

  /** How one group is made a value, threading the element state. */
  type Emitter = (Store, seq<Val>) -> Result<(Store, Val)>

  /** The groups yielded in the order their keys first appeared, each
      made a value by *emit*; the first error ends the loop. */
  function EmitEach(emit: Emitter, st: Store, keys: seq<Val>, groups: map<Val, seq<Val>>)
    : (r: Result<(Store, seq<Val>)>)
    requires forall k :: k in keys ==> k in groups
    ensures r.Success? ==> |r.value.1| == |keys|
    decreases |keys|
  {
    if |keys| == 0 then Success((st, []))
    else
      var (st1, out) :- emit(st, groups[keys[0]]);
      var (st2, rest) :- EmitEach(emit, st1, keys[1..], groups);
      Success((st2, [out] + rest))
  }

  /** The groups yielded by `run`. */
  function EmitGroups(cfg: Config, ops: ScaleOps, st: Store, keys: seq<Val>, groups: map<Val, seq<Val>>)
    : Result<(Store, seq<Val>)>
    requires forall k :: k in keys ==> k in groups
  {
    EmitEach((s: Store, g: seq<Val>) => EmitGroup(cfg, ops, s, g), st, keys, groups)
  }

  /** A value yielded for a group of *n* members: its data lists *n*
      data parts and its `context.group` *n* contexts. */
  predicate Shaped(out: Val, n: nat)
  {
    HasContext(out) && GetData(out).VList? && |GetData(out).items| == n
    && "group" in GetContext(out) && GetContext(out)["group"].VList?
    && |GetContext(out)["group"].items| == n
  }

  /** Each yielded group is one value with one data part and one context
      per member, whatever the scale and transform did. */
  lemma EmitGroupShape(cfg: Config, ops: ScaleOps, st: Store, grp: seq<Val>)
    requires EmitGroup(cfg, ops, st, grp).Success?
    ensures Shaped(EmitGroup(cfg, ops, st, grp).value.1, |grp|)
  {
    if cfg.scale.Some? {
      var sc := ScaleOf(cfg.scale.value, ops, grp).value;
      RescaleAllItems(cfg.scale.value, ops, sc, grp);
    }
  }

  /** An emitter that shapes every group it makes a value of shapes all
      the groups yielded, key by key. */
  lemma {:induction false} EmitEachShaped(emit: Emitter, st: Store, keys: seq<Val>, groups: map<Val, seq<Val>>)
    requires forall k :: k in keys ==> k in groups
    requires forall s, g :: emit(s, g).Success? ==> Shaped(emit(s, g).value.1, |g|)
    requires EmitEach(emit, st, keys, groups).Success?
    ensures var outs := EmitEach(emit, st, keys, groups).value.1;
            forall i :: 0 <= i < |keys| ==> Shaped(outs[i], |groups[keys[i]]|)
    decreases |keys|
  {
    if |keys| > 0 {
      var first := emit(st, groups[keys[0]]);
      EmitEachShaped(emit, first.value.0, keys[1..], groups);
      var rest := EmitEach(emit, first.value.0, keys[1..], groups).value.1;
      var outs := EmitEach(emit, st, keys, groups).value.1;
      assert outs == [first.value.1] + rest;
      forall i | 1 <= i < |keys|
        ensures Shaped(outs[i], |groups[keys[i]]|)
      {
        assert outs[i] == rest[i - 1] && keys[i] == keys[1..][i - 1];
      }
    }
  }

  /** The groups yielded: one value per key, in key order, each with one
      data part and one context per member of that key's group. */
  lemma EmitGroupsYields(cfg: Config, ops: ScaleOps, st: Store, keys: seq<Val>, groups: map<Val, seq<Val>>)
    requires forall k :: k in keys ==> k in groups
    requires EmitGroups(cfg, ops, st, keys, groups).Success?
    ensures |EmitGroups(cfg, ops, st, keys, groups).value.1| == |keys|
    ensures var outs := EmitGroups(cfg, ops, st, keys, groups).value.1;
            forall i :: 0 <= i < |keys| ==> Shaped(outs[i], |groups[keys[i]]|)
  {
    var emit := (s: Store, g: seq<Val>) => EmitGroup(cfg, ops, s, g);
    forall s, g | emit(s, g).Success?
      ensures Shaped(emit(s, g).value.1, |g|)
    {
      EmitGroupShape(cfg, ops, s, g);
    }
    EmitEachShaped(emit, st, keys, groups);
  }

  // ------------------------------------------------------------------
  // The scale call as written

  /** As written, `self._scale(grp)` calls the GroupScale object, which
      has no `__call__`: TypeError for every group when a scale is set. */
  function EmitGroupAsWritten(cfg: Config, ops: ScaleOps, st: Store, grp: seq<Val>): (r: Result<(Store, Val)>)
  {
    if cfg.scale.Some? then Failure(PyTypeError)
    else
      var (st1, mapped) :- SeqMap(cfg.transform, st, grp, true);
      Success((st1, GroupPlotsOf(mapped.vals)))
  }

  function EmitGroupsAsWritten(cfg: Config, ops: ScaleOps, st: Store, keys: seq<Val>, groups: map<Val, seq<Val>>)
    : Result<(Store, seq<Val>)>
    requires forall k :: k in keys ==> k in groups
  {
    EmitEach((s: Store, g: seq<Val>) => EmitGroupAsWritten(cfg, ops, s, g), st, keys, groups)
  }

  /** Emitters that agree on every group yield the same. */
  lemma {:induction false} EmitEachSame(e1: Emitter, e2: Emitter, st: Store, keys: seq<Val>, groups: map<Val, seq<Val>>)
    requires forall k :: k in keys ==> k in groups
    requires forall s, g :: e1(s, g) == e2(s, g)
    ensures EmitEach(e1, st, keys, groups) == EmitEach(e2, st, keys, groups)
    decreases |keys|
  {
    if |keys| > 0 {
      var first := e1(st, groups[keys[0]]);
      if first.Success? {
        EmitEachSame(e1, e2, first.value.0, keys[1..], groups);
      }
    }
  }

  /** As written, a scale with at least one group always raises TypeError;
      without a scale the code as written and the corrected one agree. */
  lemma ScaleCallAsWritten(cfg: Config, ops: ScaleOps, st: Store, keys: seq<Val>, groups: map<Val, seq<Val>>)
    requires forall k :: k in keys ==> k in groups
    ensures cfg.scale.Some? && |keys| > 0 ==> EmitGroupsAsWritten(cfg, ops, st, keys, groups) == Failure(PyTypeError)
    ensures cfg.scale.None? ==> EmitGroupsAsWritten(cfg, ops, st, keys, groups) == EmitGroups(cfg, ops, st, keys, groups)
  {
    var written := (s: Store, g: seq<Val>) => EmitGroupAsWritten(cfg, ops, s, g);
    var corrected := (s: Store, g: seq<Val>) => EmitGroup(cfg, ops, s, g);
    if cfg.scale.None? {
      EmitEachSame(written, corrected, st, keys, groups);
    }
  }

  /** One key: the value its group is made. */
  lemma EmitEachOne(emit: Emitter, st: Store, key: Val, groups: map<Val, seq<Val>>)
    requires key in groups
    ensures EmitEach(emit, st, [key], groups) ==
            (var (st1, out) :- emit(st, groups[key]); Success((st1, [out])))
  {
    assert [key][1..] == [] && [key][0] == key;
    var e := emit(st, groups[key]);
    if e.Success? {
      assert EmitEach(emit, e.value.0, [], groups) == Success((e.value.0, []));
      assert [e.value.1] + [] == [e.value.1];
    }
  }

  /** A histogram of scale 2 scaled to 1. */
  lemma ScaleOneHist(gs: GroupScale)
    requires gs == GroupScale(ToNumber(VInt(1)), false, false)
    ensures ScaleGroup(gs, HistOps, [Pair(Hist(2), map[])]) == Success([Pair(Hist(1), map[])])
  {
    var h := Pair(Hist(2), map[]);
    var h1 := Pair(Hist(1), map[]);
    assert map["scale" := VInt(2)]["scale" := VInt(1)] == map["scale" := VInt(1)];
    assert SetScale(Hist(2), VInt(1)) == Success(Hist(1));
    assert RescaleOne(gs, HistOps, VInt(1), h) == Success(h1);
    RescaleSingle(gs, HistOps, VInt(1), h);
  }

  /** With the identity transform the scaled group is made one value. */
  lemma ScaleEmitHist(cfg: Config, st: Store, sid: nat, rid: nat, id: nat)
    requires cfg == Config(None, Some(GroupScale(ToNumber(VInt(1)), false, false)),
                           CoreLaws.MapSeq(sid, rid, id, (v: Val) => v), false)
    ensures EmitGroup(cfg, HistOps, st, [Pair(Hist(2), map[])]) == Success((st, GroupPlotsOf([Pair(Hist(1), map[])])))
  {
    var h1 := Pair(Hist(1), map[]);
    ScaleOneHist(cfg.scale.value);
    SeqMapMaps(sid, rid, id, (v: Val) => v, st, [h1]);
    assert CoreLaws.MapVals((v: Val) => v, [h1]) == [h1];
  }

  /** A group of one histogram of scale 2, with scale 1 and an identity
      transform: the code as written raises TypeError, the corrected code
      yields the histogram rescaled to 1. */
  lemma ScaleExample(sid: nat, rid: nat, id: nat, st: Store, key: Val)
    ensures
      var cfg := Config(None, Some(GroupScale(ToNumber(VInt(1)), false, false)),
                        CoreLaws.MapSeq(sid, rid, id, (v: Val) => v), false);
      var groups := map[key := [Pair(Hist(2), map[])]];
      EmitGroupsAsWritten(cfg, HistOps, st, [key], groups) == Failure(PyTypeError)
      && EmitGroups(cfg, HistOps, st, [key], groups).Success?
      && GetData(EmitGroups(cfg, HistOps, st, [key], groups).value.1[0]) == VList([Hist(1)])
  {
    var cfg := Config(None, Some(GroupScale(ToNumber(VInt(1)), false, false)),
                      CoreLaws.MapSeq(sid, rid, id, (v: Val) => v), false);
    var groups := map[key := [Pair(Hist(2), map[])]];
    ScaleCallAsWritten(cfg, HistOps, st, [key], groups);
    ScaleEmitHist(cfg, st, sid, rid, id);
    EmitEachOne((s: Store, g: seq<Val>) => EmitGroup(cfg, HistOps, s, g), st, key, groups);
    assert DataOf([Pair(Hist(1), map[])]) == [Hist(1)];
  }

  /** One group of `run`: scaled, mapped and made one value. */
  method EmitOne(cfg: Config, ops: ScaleOps, st: Store, grp: seq<Val>) returns (r: Result<(Store, Val)>)
    ensures r == EmitGroup(cfg, ops, st, grp)
  {
    var scaled := grp;
    if cfg.scale.Some? {
      var sc := Scale(cfg.scale.value, ops, grp);
      if sc.Failure? {
        return Failure(sc.error);
      }
      scaled := sc.value;
    }
    var mapped := SeqMap(cfg.transform, st, scaled, true);
    if mapped.Failure? {
      return Failure(mapped.error);
    }
    return Success((mapped.value.0, GroupPlotsOf(mapped.value.1.vals)));
  }

  /** The loop over the groups in `run`. */
  method EmitAll(cfg: Config, ops: ScaleOps, st: Store, keys: seq<Val>, groups: map<Val, seq<Val>>)
    returns (r: Result<(Store, seq<Val>)>)
    requires forall k :: k in keys ==> k in groups
    ensures r == EmitGroups(cfg, ops, st, keys, groups)
  {
    var cur := st;
    var outs: seq<Val> := [];
    var i := 0;
    AddOutsNothing(EmitGroups(cfg, ops, st, keys, groups));
    while i < |keys|
      invariant 0 <= i <= |keys|
      invariant EmitGroups(cfg, ops, st, keys, groups) == AddOuts(outs, EmitGroups(cfg, ops, cur, keys[i..], groups))
    {
      assert keys[i..][1..] == keys[i + 1..];
      var one := EmitOne(cfg, ops, cur, groups[keys[i]]);
      if one.Failure? {
        return Failure(one.error);
      }
      AddOutsTwice(outs, [one.value.1], EmitGroups(cfg, ops, one.value.0, keys[i + 1..], groups));
      outs := outs + [one.value.1];
      cur := one.value.0;
      i := i + 1;
    }
    assert outs + [] == outs;
    return Success((cur, outs));
  }

  // ------------------------------------------------------------------
  // The element

  /** `GroupPlots`: its configuration and the GroupBy it fills (shared
      with whoever passed it in). */
  class GroupPlots {
    const cfg: Config
    const groupBy: GroupBy

    constructor (cfg: Config, groupBy: GroupBy)
      ensures this.cfg == cfg && this.groupBy == groupBy
    {
      this.cfg := cfg;
      this.groupBy := groupBy;
    }

    /** `run(flow)`: the pass over the flow, then the groups (all groups
        the GroupBy holds, including those of earlier runs). An error ends
        the run; the GroupBy keeps what was added before it. */
    method Run(ops: ScaleOps, st: Store, flow: seq<Val>) returns (r: Result<(Store, seq<Val>)>)
      requires groupBy.Valid()
      modifies groupBy
      ensures groupBy.Valid()
      ensures var p := Pass(cfg, groupBy.keyFn, old(groupBy.keys), old(groupBy.groups), flow);
              groupBy.keys == p.keys && groupBy.groups == p.groups
              && (p.error.Some? ==> r == Failure(p.error.value))
              && (p.error.None? ==> r == AddOuts(p.outs, EmitGroups(cfg, ops, st, p.keys, p.groups)))
    {
      ghost var whole := Pass(cfg, groupBy.keyFn, groupBy.keys, groupBy.groups, flow);
      var outs: seq<Val> := [];
      var i := 0;
      assert flow[0..] == flow;
      PrefixedNothing(whole);
      while i < |flow|
        invariant 0 <= i <= |flow|
        invariant groupBy.Valid()
        invariant whole == Prefixed(outs, Pass(cfg, groupBy.keyFn, groupBy.keys, groupBy.groups, flow[i..]))
      {
        PassAdvance(cfg, groupBy.keyFn, whole, outs, groupBy.keys, groupBy.groups, flow, i);
        var val := flow[i];
        if Selects(cfg, val) {
          var copy := if cfg.yieldSelected then [val] else [];
          var u := groupBy.Update(val);
          if u.Failure? {
            return Failure(u.error);
          }
          outs := outs + copy;
        } else {
          outs := outs + [val];
        }
        i := i + 1;
      }
      assert flow[i..] == [];
      assert outs + [] == outs;
      var emitted := EmitAll(cfg, ops, st, groupBy.keys, groupBy.groups);
      r := AddOuts(outs, emitted);
    }
  }

  /** `GroupPlots(group_by, select, transform, scale, yield_selected)`:
      a GroupBy given is shared, anything else makes a new one; any
      argument that cannot be converted raises LenaTypeError. */
  method NewGroupPlots(groupBy: GroupByInit, select: SelectInit, transform: TransformInit, scale: ScaleInit,
                       yieldSelected: bool, nextId: nat)
    returns (r: Result<GroupPlots>, next: nat)
    ensures r.Success? <==> MakeConfig(select, scale, transform, yieldSelected, nextId).Success?
                            && (groupBy.GroupByArgument? ==> MakeKeyFn(groupBy.arg).Success?)
    ensures r.Failure? ==> r.error == LenaTypeError
    ensures r.Success? ==>
              fresh(r.value) && r.value.cfg == MakeConfig(select, scale, transform, yieldSelected, nextId).value.0
              && next == MakeConfig(select, scale, transform, yieldSelected, nextId).value.1
              && (groupBy.GroupByGiven? ==> r.value.groupBy == groupBy.g)
              && (groupBy.GroupByArgument? ==>
                    fresh(r.value.groupBy) && r.value.groupBy.Valid()
                    && r.value.groupBy.keyFn == MakeKeyFn(groupBy.arg).value
                    && r.value.groupBy.keys == [] && r.value.groupBy.groups == map[])
  {
    next := nextId;
    var cfg := MakeConfig(select, scale, transform, yieldSelected, nextId);
    if cfg.Failure? {
      return Failure(cfg.error), next;
    }
    var g: GroupBy;
    match groupBy {
      case GroupByGiven(given) =>
        g := given;
      case GroupByArgument(arg) =>
        var kf := MakeKeyFn(arg);
        if kf.Failure? {
          return Failure(kf.error), next;
        }
        g := new GroupBy(kf.value);
    }
    var gp := new GroupPlots(cfg.value.0, g);
    return Success(gp), cfg.value.1;
  }
}
