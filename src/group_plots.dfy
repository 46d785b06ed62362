// Groups of plots (lena/flow/group_plots.py): the `group_plots` function,
// the common-context update of a transformed group, `MapGroup` and
// `GroupPlots`.

module FlowGroupPlots {
  import opened Wrappers
  import opened Values
  import opened Strings
  import opened FlowFunctions
  import opened ContextFunctions
  import opened ContextSets
  import opened Selectors
  import opened CoreElements
  import opened CoreRun
  import opened CoreBuild
  import opened FlowGroupBy
  import opened FlowGroupScale
  import opened FlowSeqMap
  import opened CoreLoops
  import CoreLaws

  // ------------------------------------------------------------------
  // context.output.changed

  lemma ChangedPathKeys()
    ensures KeyList(VStr("output.changed")) == Success([VStr("output"), VStr("changed")])
  {
    var parts := ["output", "changed"];
    SplitJoin(parts, '.');
    assert parts[1..] == ["changed"];
    assert Join(parts, '.') == "output.changed";
    NonEmptyPartsAll(parts);
    assert StrKeys(parts) == [VStr("output"), VStr("changed")];
  }

  /** Whether *c* holds a value at `output.changed`. */
  predicate HasChanged(c: Dict)
  {
    "output" in c && c["output"].VDict? && "changed" in c["output"].m
  }

  /** `get_recursively(c, "output.changed", default)`. */
  function ChangedOf(c: Dict, default: Val): (r: Val)
    ensures HasChanged(c) ==> r == c["output"].m["changed"]
    ensures !HasChanged(c) ==> r == default
  {
    ChangedPathKeys();
    var ks := [VStr("output"), VStr("changed")];
    assert ks[1..] == [VStr("changed")];
    LookupResult(c, ks, Some(default)).value
  }

  /** `update_recursively(c, "output.changed", b)` merges the nested flag. */
  lemma ChangedUpdate(c: Dict, b: bool)
    ensures UpdateRecursively(VDict(c), VStr("output.changed"), Some(VBool(b)))
            == Success(VDict(Merge(c, map["output" := VDict(map["changed" := VBool(b)])])))
  {
    assert "output" + "." + "changed" == "output.changed";
    SetTwoParts(c, "output", "changed", VBool(b));
  }

  /** `update_recursively(c, "output.changed", b)`: the flag is set and the
      other keys of the context are kept. */
  lemma SetChanged(c: Dict, b: bool)
    ensures UpdateRecursively(VDict(c), VStr("output.changed"), Some(VBool(b))).Success?
    ensures var r := UpdateRecursively(VDict(c), VStr("output.changed"), Some(VBool(b))).value;
            r.VDict? && HasChanged(r.m) && r.m["output"].m["changed"] == VBool(b)
            && r.m.Keys == c.Keys + {"output"}
            && forall k :: k in c && k != "output" ==> r.m[k] == c[k]
  {
    ChangedUpdate(c, b);
    MergedFlag(c, "output", "changed", VBool(b));
  }

  function DictVals(ds: seq<Dict>): (r: seq<Val>)
    ensures |r| == |ds| && forall i :: 0 <= i < |ds| ==> r[i] == VDict(ds[i])
  {
    if |ds| == 0 then [] else [VDict(ds[0])] + DictVals(ds[1..])
  }

  function ContextsOf(group: seq<Val>): (r: seq<Dict>)
    ensures |r| == |group| && forall i :: 0 <= i < |group| ==> r[i] == GetContext(group[i])
  {
    if |group| == 0 then [] else [GetContext(group[0])] + ContextsOf(group[1..])
  }

  function DataOf(group: seq<Val>): (r: seq<Val>)
    ensures |r| == |group| && forall i :: 0 <= i < |group| ==> r[i] == GetData(group[i])
  {
    if |group| == 0 then [] else [GetData(group[0])] + DataOf(group[1..])
  }

  lemma DictValsAreDicts(ds: seq<Dict>)
    ensures forall i :: 0 <= i < |DictVals(ds)| ==> DictVals(ds)[i].VDict?
    ensures DictsOf(DictVals(ds)) == ds
  {
  }

  /** Whether any context's `output.changed` is true (False when missing). */
  predicate AnyChanged(contexts: seq<Dict>)
  {
    exists i :: 0 <= i < |contexts| && Truthy(ChangedOf(contexts[i], VBool(false)))
  }

  /** The intersection of dictionaries, which cannot fail. */
  function CommonContext(contexts: seq<Dict>): (r: Dict)
    ensures Intersection(DictVals(contexts), map[]) == Success(r)
    ensures forall i :: 0 <= i < |contexts| ==> Contained(r, contexts[i])
  {
    DictValsAreDicts(contexts);
    var r := Intersection(DictVals(contexts), map[]).value;
    forall i | 0 <= i < |contexts| ensures Contained(r, contexts[i]) {
      IntersectionContainedInAll(DictVals(contexts), map[], i);
    }
    r
  }

  /** `group_plots(group)`: the data parts as a list, with a context that
      is the intersection of the values' contexts, `output.changed` set to
      whether any of them changed, and `group` listing all the contexts. */
  function GroupPlotsOf(group: seq<Val>): (r: Val)
    ensures HasContext(r) && GetData(r) == VList(DataOf(group))
    ensures var c := GetContext(r);
            "group" in c && c["group"] == VList(DictVals(ContextsOf(group)))
            && HasChanged(c) && c["output"].m["changed"] == VBool(AnyChanged(ContextsOf(group)))
    ensures forall k :: k in CommonContext(ContextsOf(group)) && k != "output" && k != "group" ==>
              k in GetContext(r) && GetContext(r)[k] == CommonContext(ContextsOf(group))[k]
  {
    var contexts := ContextsOf(group);
    var changed := AnyChanged(contexts);
    var common := CommonContext(contexts);
    SetChanged(common, changed);
    var c := UpdateRecursively(VDict(common), VStr("output.changed"), Some(VBool(changed))).value.m;
    Pair(VList(DataOf(group)), c["group" := VList(DictVals(contexts))])
  }

  // ------------------------------------------------------------------
  // _update_with_group

  /** Whether a value equals False, as `False in a_set` tests it. */
  predicate EqualsFalse(v: Val)
  {
    v == VBool(false) || v == VInt(0) || v == VReal(0.0)
  }

  function ChangedFlags(cs: seq<Dict>): (r: seq<Val>)
    ensures |r| == |cs| && forall i :: 0 <= i < |cs| ==> r[i] == ChangedOf(cs[i], VNone)
  {
    if |cs| == 0 then [] else [ChangedOf(cs[0], VNone)] + ChangedFlags(cs[1..])
  }

  /** The `output.changed` flags of the value's context and of the items'
      contexts (None when missing). */
  function Flags(context: Dict, newGrp: seq<Dict>): seq<Val>
  {
    [ChangedOf(context, VNone)] + ChangedFlags(newGrp)
  }

  /** The flags gathered into a set (an unhashable flag raises TypeError),
      then: true if any is true, false if one equals False, else unknown. */
  function GroupChanged(flags: seq<Val>): (r: Result<Option<bool>>)
    ensures r.Failure? <==> exists i :: 0 <= i < |flags| && !Hashable(flags[i])
    ensures r.Failure? ==> r.error == PyTypeError
    ensures r.Success? && r.value == Some(false) ==> forall i :: 0 <= i < |flags| ==> !Truthy(flags[i])
  {
    if exists i :: 0 <= i < |flags| && !Hashable(flags[i]) then Failure(PyTypeError)
    else if exists i :: 0 <= i < |flags| && Truthy(flags[i]) then Success(Some(true))
    else if exists i :: 0 <= i < |flags| && EqualsFalse(flags[i]) then Success(Some(false))
    else Success(None)
  }

  /** The context with `output.changed` set when the flags decide it. */
  function WithChanged(context: Dict, changed: Option<bool>): (r: Dict)
    ensures changed.Some? ==> HasChanged(r) && r["output"].m["changed"] == VBool(changed.value)
    ensures forall k :: k in context && k != "output" ==> k in r && r[k] == context[k]
    ensures changed.None? ==> r == context
  {
    if changed.Some? then
      SetChanged(context, changed.value);
      UpdateRecursively(VDict(context), VStr("output.changed"), Some(VBool(changed.value))).value.m
    else context
  }

  /** What the items' common context gained since the group was formed.
      It uses the corrected `Difference`; the program as written is `ContextUpdateAsWritten`. */
  function ContextUpdate(newGrp: seq<Dict>, oldInter: Dict): (r: Dict)
    ensures Contained(CommonContext(newGrp), Merge(oldInter, r))
  {
    DifferenceRestores(CommonContext(newGrp), oldInter, -1);
    Difference(VDict(CommonContext(newGrp)), VDict(oldInter), -1).m
  }

  /** `_update_with_group(context, new_grp_context, old_inter_context)`,
      returning the updated context: `output.changed` from the value's and
      the items' flags (an unhashable flag raises TypeError), the change of
      the items' common context merged in, and `group` set to the items'
      contexts. */
  function UpdateWithGroup(context: Dict, newGrp: seq<Dict>, oldInter: Dict): (r: Result<Dict>)
    ensures r.Failure? <==> exists i :: 0 <= i < |Flags(context, newGrp)| && !Hashable(Flags(context, newGrp)[i])
    ensures r.Failure? ==> r.error == PyTypeError
    ensures r.Success? ==> "group" in r.value && r.value["group"] == VList(DictVals(newGrp))
  {
    var changed :- GroupChanged(Flags(context, newGrp));
    var c1 := WithChanged(context, changed);
    var c2 := Merge(c1, ContextUpdate(newGrp, oldInter));
    assert UpdateRecursively(VDict(c1), VDict(ContextUpdate(newGrp, oldInter)), None) == Success(VDict(c2));
    Success(c2["group" := VList(DictVals(newGrp))])
  }

  /** The updated context contains the items' new common context wherever
      it differs from the old one, keeps the value's other keys, and holds
      the new `output.changed` flag unless the common context itself
      changed `output`. */
  lemma UpdateWithGroupContents(context: Dict, newGrp: seq<Dict>, oldInter: Dict)
    requires UpdateWithGroup(context, newGrp, oldInter).Success?
    ensures var r := UpdateWithGroup(context, newGrp, oldInter).value;
            var diff := ContextUpdate(newGrp, oldInter);
            (forall k :: k in diff && k != "group" ==> k in r && ValContained(diff[k], r[k]))
            && (forall k :: k in context && k !in diff && k != "group" && k != "output" ==>
                  k in r && r[k] == context[k])
    ensures var r := UpdateWithGroup(context, newGrp, oldInter).value;
            var changed := GroupChanged(Flags(context, newGrp)).value;
            "output" !in ContextUpdate(newGrp, oldInter) ==>
              (changed.Some? ==> HasChanged(r) && r["output"].m["changed"] == VBool(changed.value))
              && (changed.None? ==> ("output" in r <==> "output" in context)
                                    && ("output" in context ==> r["output"] == context["output"]))
  {
    var changed := GroupChanged(Flags(context, newGrp)).value;
    var c1 := WithChanged(context, changed);
    var diff := ContextUpdate(newGrp, oldInter);
    var r := UpdateWithGroup(context, newGrp, oldInter).value;
    assert r == Merge(c1, diff)["group" := VList(DictVals(newGrp))];
    MergeContainsOther(c1, diff);
  }

  /** `context_update` as written: lena's `difference` drops a differing
      falsy value (see `ContextSets.DifferenceAsWritten`), so a common
      value that became 0, "", None or False is not carried over. */
  function ContextUpdateAsWritten(newGrp: seq<Dict>, oldInter: Dict): (r: Dict)
    ensures r.Keys <= CommonContext(newGrp).Keys
    ensures forall k :: k in r && k !in oldInter ==> r[k] == CommonContext(newGrp)[k]
  {
    DifferenceAsWritten(VDict(CommonContext(newGrp)), VDict(oldInter), -1).m
  }

  /** `_update_with_group` as written, with `ContextUpdateAsWritten`. */
  function UpdateWithGroupAsWritten(context: Dict, newGrp: seq<Dict>, oldInter: Dict): (r: Result<Dict>)
    ensures r.Failure? <==> GroupChanged(Flags(context, newGrp)).Failure?
    ensures r.Success? ==> "group" in r.value && r.value["group"] == VList(DictVals(newGrp))
  {
    var changed :- GroupChanged(Flags(context, newGrp));
    var c1 := WithChanged(context, changed);
    Success(Merge(c1, ContextUpdateAsWritten(newGrp, oldInter))["group" := VList(DictVals(newGrp))])
  }

  /** The common context of a single item is its context. */
  lemma CommonOfOne(d: Dict)
    ensures CommonContext([d]) == d
  {
    assert DictVals([d]) == [VDict(d)];
    assert DictsOf(DictVals([d])[1..]) == [];
  }

  /** One item whose value under *key* is 0 against an old common value
      of 1: the difference as written is empty, the corrected one is the
      item's context. */
  lemma FalsyUpdateAt(g: Dict, oldInter: Dict, key: string)
    requires g == map[key := VInt(0)] && oldInter == map[key := VInt(1)]
    ensures ContextUpdateAsWritten([g], oldInter) == map[]
    ensures ContextUpdate([g], oldInter) == g
  {
    CommonOfOne(g);
    assert !PyEq(VDict(g), VDict(oldInter)) by { assert Canon(VDict(g)).m[key] == VInt(0); }
    assert !PyEq(g[key], oldInter[key]);
  }

  /** An empty update leaves every key but "group" and "output" as it was. */
  lemma AsWrittenKeepsAt(context: Dict, newGrp: seq<Dict>, oldInter: Dict, key: string)
    requires key != "group" && key != "output" && key in context
    requires ContextUpdateAsWritten(newGrp, oldInter) == map[]
    requires GroupChanged(Flags(context, newGrp)).Success?
    ensures UpdateWithGroupAsWritten(context, newGrp, oldInter).Success?
    ensures UpdateWithGroupAsWritten(context, newGrp, oldInter).value[key] == context[key]
  {
    var c1 := WithChanged(context, GroupChanged(Flags(context, newGrp)).value);
    assert key in c1 && c1[key] == context[key];
    assert Merge(c1, map[]) == c1;
  }

  /** An update of *key* to a value that is not a dict writes that value. */
  lemma UpdateWritesAt(context: Dict, newGrp: seq<Dict>, oldInter: Dict, key: string, v: Val)
    requires key != "group" && !v.VDict?
    requires ContextUpdate(newGrp, oldInter) == map[key := v]
    requires GroupChanged(Flags(context, newGrp)).Success?
    ensures UpdateWithGroup(context, newGrp, oldInter).Success?
    ensures UpdateWithGroup(context, newGrp, oldInter).value[key] == v
  {
    var c1 := WithChanged(context, GroupChanged(Flags(context, newGrp)).value);
    assert Merge(c1, map[key := v])[key] == v;
  }

  /** A group whose common value under *key* went from 1 to 0: the
      program keeps the context's stale value, the intended update writes
      0. */
  lemma UpdateWithGroupLosesFalsyAt(context: Dict, g: Dict, oldInter: Dict, key: string)
    requires key != "group" && key != "output" && key in context
    requires g == map[key := VInt(0)] && oldInter == map[key := VInt(1)]
    requires GroupChanged(Flags(context, [g])).Success?
    ensures UpdateWithGroupAsWritten(context, [g], oldInter).Success?
    ensures UpdateWithGroupAsWritten(context, [g], oldInter).value[key] == context[key]
    ensures UpdateWithGroup(context, [g], oldInter).Success?
    ensures UpdateWithGroup(context, [g], oldInter).value[key] == VInt(0)
  {
    FalsyUpdateAt(g, oldInter, key);
    AsWrittenKeepsAt(context, [g], oldInter, key);
    UpdateWritesAt(context, [g], oldInter, key, VInt(0));
  }

  /** The instance: context {"a": 1}, old common context {"a": 1}, one
      item with context {"a": 0}. */
  lemma UpdateWithGroupLosesFalsy()
    ensures var context := map["a" := VInt(1)];
            var newGrp := [map["a" := VInt(0)]];
            var oldInter := map["a" := VInt(1)];
            && UpdateWithGroupAsWritten(context, newGrp, oldInter).Success?
            && UpdateWithGroupAsWritten(context, newGrp, oldInter).value["a"] == VInt(1)
            && UpdateWithGroup(context, newGrp, oldInter).Success?
            && UpdateWithGroup(context, newGrp, oldInter).value["a"] == VInt(0)
  {
    var context := map["a" := VInt(1)];
    var g := map["a" := VInt(0)];
    var flags := Flags(context, [g]);
    assert |flags| == 2 && forall i :: 0 <= i < 2 ==> flags[i] == VNone;
    UpdateWithGroupLosesFalsyAt(context, g, map["a" := VInt(1)], "a");
  }

  // ------------------------------------------------------------------
  // MapGroup

  /** `MapGroup(*seq, map_scalars=True)`. */
  datatype MapGroup = MapGroup(sq: Element, mapScalars: bool)

  /** `MapGroup.__init__`: the arguments form a Sequence (or LenaTypeError);
      `map_scalars` is kept by its truth value, and any other keyword
      argument raises LenaTypeError. */
  function MakeMapGroup(args: seq<Element>, kwargs: map<string, Val>, nextId: nat): (r: Result<(MapGroup, nat)>)
    ensures r.Success? <==> MakeSequence(args, nextId).Success? && kwargs.Keys <= {"map_scalars"}
    ensures r.Failure? ==> r.error == LenaTypeError
    ensures r.Success? ==>
              r.value.0.sq == MakeSequence(args, nextId).value.0
              && (r.value.0.mapScalars <==> "map_scalars" !in kwargs || Truthy(kwargs["map_scalars"]))
  {
    var (sq, next) :- MakeSequence(args, nextId);
    var ms := if "map_scalars" in kwargs then kwargs["map_scalars"] else VBool(true);
    if kwargs.Keys - {"map_scalars"} != {} then Failure(LenaTypeError)
    else Success((MapGroup(sq, Truthy(ms)), next))
  }

  /** `hasattr(data, "__iter__")`. */
  predicate HasIter(v: Val)
  {
    v.VStr? || v.VList? || v.VTuple? || v.VDict?
  }

  /** `len(v)`; an unsized value raises TypeError. */
  function Len(v: Val): (r: Result<nat>)
    ensures r.Success? <==> HasIter(v)
    ensures Iterate(v).Success? ==> r == Success(|Iterate(v).value|)
  {
    match v
    case VStr(s) => Success(|s|)
    case VList(items) => Success(|items|)
    case VTuple(items) => Success(|items|)
    case VDict(m) => Success(|m.Keys|)
    case _ => Failure(PyTypeError)
  }

  /** A value is a group when its context has `group` and its data part is
      iterable. */
  predicate IsGroup(val: Val)
  {
    "group" in GetContext(val) && HasIter(GetData(val))
  }

  /** `list(seq.run([(dt, context["group"][i])]))` for each item of the
      group in turn. */
  function RunItems(sq: Element, st: Store, items: seq<Val>, ctxs: seq<Val>): (r: Result<(Store, seq<seq<Val>>)>)
    requires |items| == |ctxs|
    ensures r.Success? ==> |r.value.1| == |items|
    decreases |items|
  {
    if |items| == 0 then Success((st, []))
    else
      var (st1, first) :- RunFlow(sq, st, [VTuple([items[0], ctxs[0]])]);
      var (st2, rest) :- RunItems(sq, st1, items[1..], ctxs[1..]);
      Success((st2, [first] + rest))
  }

  /** The `enumerate(data)` loop of `MapGroup.run`. */
  method MapItems(sq: Element, st: Store, items: seq<Val>, ctxs: seq<Val>) returns (r: Result<(Store, seq<seq<Val>>)>)
    requires |items| == |ctxs|
    ensures r == RunItems(sq, st, items, ctxs)
  {
    var cur := st;
    var newVals: seq<seq<Val>> := [];
    var i := 0;
    assert items[0..] == items && ctxs[0..] == ctxs;
    PrependResults([], RunItems(sq, st, items, ctxs));
    while i < |items|
      invariant 0 <= i <= |items|
      invariant RunItems(sq, st, items, ctxs) == Prepended(newVals, RunItems(sq, cur, items[i..], ctxs[i..]))
    {
      assert items[i..][1..] == items[i + 1..] && ctxs[i..][1..] == ctxs[i + 1..];
      var res := RunFlow(sq, cur, [VTuple([items[i], ctxs[i]])]);
      if res.Failure? {
        return Failure(res.error);
      }
      PrependTwiceResults(newVals, res.value.1, RunItems(sq, res.value.0, items[i + 1..], ctxs[i + 1..]));
      newVals := newVals + [res.value.1];
      cur := res.value.0;
      i := i + 1;
    }
    assert items[i..] == [] && ctxs[i..] == [];
    assert newVals + [] == newVals;
    return Success((cur, newVals));
  }

  /** The results gathered before *r*, put in front of its own. */
  function Prepended(done: seq<seq<Val>>, r: Result<(Store, seq<seq<Val>>)>): Result<(Store, seq<seq<Val>>)>
  {
    var (s, rest) :- r;
    Success((s, done + rest))
  }

  lemma PrependResults(done: seq<seq<Val>>, r: Result<(Store, seq<seq<Val>>)>)
    requires done == []
    ensures Prepended(done, r) == r
  {
    if r.Success? {
      assert done + r.value.1 == r.value.1;
    }
  }

  lemma PrependTwiceResults(done: seq<seq<Val>>, first: seq<Val>, r: Result<(Store, seq<seq<Val>>)>)
    ensures Prepended(done, Prepended([first], r)) == Prepended(done + [first], r)
  {
    if r.Success? {
      assert done + ([first] + r.value.1) == (done + [first]) + r.value.1;
    }
  }

  predicate SameLengths(vals: seq<seq<Val>>, n: nat)
  {
    forall j :: 0 <= j < |vals| ==> |vals[j]| == n
  }

  /** `vals[i]`, or None past the end (where the lengths checked before
      never let it be taken). */
  function Nth(vals: seq<Val>, i: nat): Val
  {
    if i < |vals| then vals[i] else VNone
  }

  /** The *i*-th results of all items: their data parts and contexts. */
  function Column(newVals: seq<seq<Val>>, i: nat): (r: (seq<Val>, seq<Dict>))
    ensures |r.0| == |newVals| && |r.1| == |newVals|
    ensures forall j :: 0 <= j < |newVals| ==>
              r.0[j] == GetData(Nth(newVals[j], i)) && r.1[j] == GetContext(Nth(newVals[j], i))
  {
    if |newVals| == 0 then ([], [])
    else
      var rest := Column(newVals[1..], i);
      ([GetData(Nth(newVals[0], i))] + rest.0, [GetContext(Nth(newVals[0], i))] + rest.1)
  }

  /** The value yielded for the *i*-th results of a group: their data
      parts as a list, with the value's context updated from their
      contexts. */
  function ColumnOut(context: Dict, newVals: seq<seq<Val>>, oldInter: Dict, i: nat): (r: Result<Val>)
    ensures r.Success? ==> HasContext(r.value) && GetData(r.value) == VList(Column(newVals, i).0)
    ensures r.Success? ==> "group" in GetContext(r.value)
                           && GetContext(r.value)["group"] == VList(DictVals(Column(newVals, i).1))
  {
    var col := Column(newVals, i);
    var c :- UpdateWithGroup(context, col.1, oldInter);
    Success(Pair(VList(col.0), c))
  }

  /** `[f(i) for i in range(from, n)]`, the first error raised. */
  function Gather(f: nat -> Result<Val>, from: nat, n: nat): (r: Result<seq<Val>>)
    requires from <= n
    ensures r.Success? ==> |r.value| == n - from
    decreases n - from
  {
    if from == n then Success([])
    else
      var first :- f(from);
      var rest :- Gather(f, from + 1, n);
      Success([first] + rest)
  }

  /** The gathered list holds each f(i) in order, and fails only when
      one of them does. */
  lemma {:induction false} GatherItems(f: nat -> Result<Val>, from: nat, n: nat)
    requires from <= n
    ensures Gather(f, from, n).Success? <==> forall k :: from <= k < n ==> f(k).Success?
    ensures Gather(f, from, n).Success? ==>
              forall k :: from <= k < n ==> Gather(f, from, n).value[k - from] == f(k).value
    decreases n - from
  {
    if from < n {
      GatherItems(f, from + 1, n);
      if Gather(f, from, n).Success? {
        var outs := Gather(f, from, n).value;
        var rest := Gather(f, from + 1, n).value;
        assert outs == [f(from).value] + rest;
      }
    }
  }

  /** GatherItems counted from the start. */
  lemma GatherFromStart(f: nat -> Result<Val>, n: nat)
    ensures Gather(f, 0, n).Success? <==> forall k :: 0 <= k < n ==> f(k).Success?
    ensures Gather(f, 0, n).Success? ==>
              forall k :: 0 <= k < n ==> Gather(f, 0, n).value[k] == f(k).value
  {
    GatherItems(f, 0, n);
  }

  /** The values yielded for a group: one per column of results. */
  function EmitColumns(context: Dict, newVals: seq<seq<Val>>, oldInter: Dict, n: nat): (r: Result<seq<Val>>)
  {
    Gather((i: nat) => ColumnOut(context, newVals, oldInter, i), 0, n)
  }

  /** A real group run item by item: its length must match that of
      `context.group`, and every item is run with its own context. Gives
      the results of each item and the intersection of the old contexts. */
  function RunGroup(mg: MapGroup, st: Store, data: Val, context: Dict): (r: Result<(Store, seq<seq<Val>>, Dict)>)
    requires "group" in context
    ensures r.Success? ==> Len(data).Success? && Len(context["group"]) == Len(data)
                           && |r.value.1| == Len(data).value
    ensures Len(data).Success? && Len(context["group"]).Success? && Len(data) != Len(context["group"])
            ==> r == Failure(LenaRuntimeError)
  {
    var n :- Len(data);
    var m :- Len(context["group"]);
    if n != m then Failure(LenaRuntimeError)
    else
      var groupCtxs :- Iterate(context["group"]);
      var oldInter :- Intersection(groupCtxs, map[]);
      var items :- Iterate(data);
      var (st1, newVals) :- RunItems(mg.sq, st, items, groupCtxs);
      Success((st1, newVals, oldInter))
  }

  /** The values yielded for a group's results: none for an empty group
      (`new_vals[0]` raises IndexError), LenaRuntimeError when the items
      gave different numbers of results, and otherwise one value per
      column. */
  function Emit(context: Dict, newVals: seq<seq<Val>>, oldInter: Dict): (r: Result<seq<Val>>)
    ensures |newVals| == 0 ==> r == Failure(PyIndexError)
    ensures |newVals| > 0 && !SameLengths(newVals, |newVals[0]|) ==> r == Failure(LenaRuntimeError)
  {
    if |newVals| == 0 then Failure(PyIndexError)
    else if !SameLengths(newVals, |newVals[0]|) then Failure(LenaRuntimeError)
    else EmitColumns(context, newVals, oldInter, |newVals[0]|)
  }

  /** A group yields one value per result of its items: the *k*-th holds
      the *k*-th results' data in item order, with `context.group` set to
      their contexts. */
  lemma EmitYields(context: Dict, newVals: seq<seq<Val>>, oldInter: Dict)
    requires Emit(context, newVals, oldInter).Success?
    ensures |newVals| > 0 && SameLengths(newVals, |Emit(context, newVals, oldInter).value|)
    ensures var outs := Emit(context, newVals, oldInter).value;
            forall k :: 0 <= k < |outs| ==>
              HasContext(outs[k]) && GetData(outs[k]) == VList(Column(newVals, k).0)
              && "group" in GetContext(outs[k])
              && GetContext(outs[k])["group"] == VList(DictVals(Column(newVals, k).1))
  {
    var n := |newVals[0]|;
    assert Emit(context, newVals, oldInter) == EmitColumns(context, newVals, oldInter, n);
    ColumnsYield(context, newVals, oldInter, n);
    var outs := Emit(context, newVals, oldInter).value;
    forall k | 0 <= k < |outs|
      ensures HasContext(outs[k]) && GetData(outs[k]) == VList(Column(newVals, k).0)
              && "group" in GetContext(outs[k])
              && GetContext(outs[k])["group"] == VList(DictVals(Column(newVals, k).1))
    {
      assert ColumnOut(context, newVals, oldInter, k).Success?;
    }
  }

  /** The *k*-th value yielded is that of the *k*-th column. */
  lemma ColumnsYield(context: Dict, newVals: seq<seq<Val>>, oldInter: Dict, n: nat)
    requires EmitColumns(context, newVals, oldInter, n).Success?
    ensures var outs := EmitColumns(context, newVals, oldInter, n).value;
            |outs| == n
            && forall k :: 0 <= k < n ==>
                 ColumnOut(context, newVals, oldInter, k).Success? && outs[k] == ColumnOut(context, newVals, oldInter, k).value
  {
    var f := (i: nat) => ColumnOut(context, newVals, oldInter, i);
    GatherFromStart(f, n);
    var outs := Gather(f, 0, n).value;
    forall k | 0 <= k < n
      ensures ColumnOut(context, newVals, oldInter, k).Success? && outs[k] == ColumnOut(context, newVals, oldInter, k).value
    {
      assert f(k) == ColumnOut(context, newVals, oldInter, k);
    }
  }

  /** A real group: run, then its columns yielded. */
  function GroupStep(mg: MapGroup, st: Store, data: Val, context: Dict): (r: Result<(Store, seq<Val>)>)
    requires "group" in context
  {
    var (st1, newVals, oldInter) :- RunGroup(mg, st, data, context);
    var outs :- Emit(context, newVals, oldInter);
    Success((st1, outs))
  }

  /** One value of the flow: a non-group passes through or is run through
      the sequence (by *map_scalars*); a group is mapped. */
  function MapGroupStep(mg: MapGroup, st: Store, val: Val): Result<(Store, seq<Val>)>
  {
    var (data, context) := GetDataContext(val);
    if !("group" in context && HasIter(data)) then
      if !mg.mapScalars then Success((st, [val])) else RunFlow(mg.sq, st, [val])
    else GroupStep(mg, st, data, context)
  }

  /** `MapGroup.run(flow)`: the outputs of each value, in order. */
  function MapGroupFlow(mg: MapGroup, st: Store, flow: seq<Val>): Result<(Store, seq<Val>)>
    decreases |flow|
  {
    if |flow| == 0 then Success((st, []))
    else
      var (st1, outs) :- MapGroupStep(mg, st, flow[0]);
      var (st2, rest) :- MapGroupFlow(mg, st1, flow[1..]);
      Success((st2, outs + rest))
  }

  /** One value of `MapGroup.run`, with the loop over the group's items. */
  method MapGroupValue(mg: MapGroup, st: Store, val: Val) returns (r: Result<(Store, seq<Val>)>)
    ensures r == MapGroupStep(mg, st, val)
  {
    var (data, context) := GetDataContext(val);
    if !("group" in context && HasIter(data)) {
      if !mg.mapScalars {
        return Success((st, [val]));
      }
      r := RunFlow(mg.sq, st, [val]);
      return;
    }
    var res := RunGroupItems(mg, st, data, context);
    if res.Failure? {
      return Failure(res.error);
    }
    var outs := EmitValues(context, res.value.1, res.value.2);
    if outs.Failure? {
      return Failure(outs.error);
    }
    return Success((res.value.0, outs.value));
  }

  /** The items of a group run one by one, as `RunGroup` specifies. */
  method RunGroupItems(mg: MapGroup, st: Store, data: Val, context: Dict)
    returns (r: Result<(Store, seq<seq<Val>>, Dict)>)
    requires "group" in context
    ensures r == RunGroup(mg, st, data, context)
  {
    var n := Len(data);
    if n.Failure? {
      return Failure(n.error);
    }
    var m := Len(context["group"]);
    if m.Failure? {
      return Failure(m.error);
    }
    if n.value != m.value {
      return Failure(LenaRuntimeError);
    }
    var groupCtxs := Iterate(context["group"]);
    if groupCtxs.Failure? {
      return Failure(groupCtxs.error);
    }
    var oldInter := Intersection(groupCtxs.value, map[]);
    if oldInter.Failure? {
      return Failure(oldInter.error);
    }
    var items := Iterate(data);
    if items.Failure? {
      return Failure(items.error);
    }
    var res := MapItems(mg.sq, st, items.value, groupCtxs.value);
    if res.Failure? {
      return Failure(res.error);
    }
    return Success((res.value.0, res.value.1, oldInter.value));
  }

  /** The columns of a group's results, with the loop that checks their
      lengths, as `Emit` specifies. */
  method EmitValues(context: Dict, newVals: seq<seq<Val>>, oldInter: Dict) returns (r: Result<seq<Val>>)
    ensures r == Emit(context, newVals, oldInter)
  {
    if |newVals| == 0 {
      return Failure(PyIndexError);
    }
    var k := |newVals[0]|;
    var j := 1;
    while j < |newVals|
      invariant 1 <= j <= |newVals|
      invariant forall i :: 0 <= i < j ==> |newVals[i]| == k
    {
      if |newVals[j]| != k {
        return Failure(LenaRuntimeError);
      }
      j := j + 1;
    }
    r := EmitColumns(context, newVals, oldInter, k);
  }

  /** The run of a flow is its first value's outputs followed by the run
      of the rest. */
  lemma MapGroupFlowFirst(mg: MapGroup, st: Store, flow: seq<Val>)
    requires |flow| > 0
    ensures MapGroupFlow(mg, st, flow) ==
            match MapGroupStep(mg, st, flow[0])
            case Failure(e) => Failure(e)
            case Success((st1, outs)) => AddOuts(outs, MapGroupFlow(mg, st1, flow[1..]))
  {
  }

  /** One pass of the loop of `MapGroup.run`: a failed step is the run's
      result, a successful one moves its outputs into the accumulated ones. */
  lemma MapGroupAdvance(mg: MapGroup, st: Store, cur: Store, flow: seq<Val>, i: nat, outs: seq<Val>,
                        step: Result<(Store, seq<Val>)>)
    requires i < |flow|
    requires step == MapGroupStep(mg, cur, flow[i])
    requires MapGroupFlow(mg, st, flow) == AddOuts(outs, MapGroupFlow(mg, cur, flow[i..]))
    ensures step.Failure? ==> MapGroupFlow(mg, st, flow) == Failure(step.error)
    ensures step.Success? ==>
              MapGroupFlow(mg, st, flow) == AddOuts(outs + step.value.1, MapGroupFlow(mg, step.value.0, flow[i + 1..]))
  {
    assert flow[i..][1..] == flow[i + 1..];
    MapGroupFlowFirst(mg, cur, flow[i..]);
    if step.Success? {
      AddOutsTwice(outs, step.value.1, MapGroupFlow(mg, step.value.0, flow[i + 1..]));
    }
  }

  /** The loop of `MapGroup.run`. */
  method MapGroupRun(mg: MapGroup, st: Store, flow: seq<Val>) returns (r: Result<(Store, seq<Val>)>)
    ensures r == MapGroupFlow(mg, st, flow)
  {
    var cur := st;
    var outs: seq<Val> := [];
    var i := 0;
    AddOutsNothing(MapGroupFlow(mg, st, flow));
    while i < |flow|
      invariant 0 <= i <= |flow|
      invariant MapGroupFlow(mg, st, flow) == AddOuts(outs, MapGroupFlow(mg, cur, flow[i..]))
    {
      var step := MapGroupValue(mg, cur, flow[i]);
      MapGroupAdvance(mg, st, cur, flow, i, outs, step);
      if step.Failure? {
        return Failure(step.error);
      }
      outs := outs + step.value.1;
      cur := step.value.0;
      i := i + 1;
    }
    assert flow[i..] == [];
    assert MapGroupFlow(mg, cur, flow[i..]) == Success((cur, []));
    assert outs + [] == outs;
    return Success((cur, outs));
  }

  /** With `map_scalars=False`, a flow without groups passes unchanged and
      the sequence is never run. */
  lemma {:induction false} ScalarsPass(mg: MapGroup, st: Store, flow: seq<Val>)
    requires !mg.mapScalars
    requires forall i :: 0 <= i < |flow| ==> !IsGroup(flow[i])
    ensures MapGroupFlow(mg, st, flow) == Success((st, flow))
    decreases |flow|
  {
    if |flow| > 0 {
      ScalarsPass(mg, st, flow[1..]);
      assert [flow[0]] + flow[1..] == flow;
    }
  }

  /** A sequence that maps each value gives each item of a group the one
      result of the item paired with its context. */
  lemma {:induction false} RunItemsMaps(sid: nat, rid: nat, id: nat, g: Val -> Val, st: Store, items: seq<Val>, ctxs: seq<Val>)
    requires |items| == |ctxs|
    ensures RunItems(CoreLaws.MapSeq(sid, rid, id, g), st, items, ctxs).Success?
    ensures RunItems(CoreLaws.MapSeq(sid, rid, id, g), st, items, ctxs).value.0 == st
    ensures var results := RunItems(CoreLaws.MapSeq(sid, rid, id, g), st, items, ctxs).value.1;
            forall j :: 0 <= j < |items| ==> results[j] == [g(VTuple([items[j], ctxs[j]]))]
    decreases |items|
  {
    if |items| > 0 {
      CoreLaws.MapSeqMaps(sid, rid, id, g, st, [VTuple([items[0], ctxs[0]])]);
      RunItemsMaps(sid, rid, id, g, st, items[1..], ctxs[1..]);
    }
  }

  /** A group mapped by such a sequence: each item's results are that one
      value, so the group yields (at most) one value. */
  lemma MapGroupMaps(sid: nat, rid: nat, id: nat, g: Val -> Val, mapScalars: bool, st: Store,
                     items: seq<Val>, ctxs: seq<Val>, context: Dict)
    requires |items| == |ctxs| && "group" in context && context["group"] == VList(ctxs)
    requires forall j :: 0 <= j < |ctxs| ==> ctxs[j].VDict?
    ensures var mg := MapGroup(CoreLaws.MapSeq(sid, rid, id, g), mapScalars);
            var run := RunGroup(mg, st, VList(items), context);
            run.Success? && run.value.0 == st
            && forall j :: 0 <= j < |items| ==> run.value.1[j] == [g(VTuple([items[j], ctxs[j]]))]
    ensures var mg := MapGroup(CoreLaws.MapSeq(sid, rid, id, g), mapScalars);
            GroupStep(mg, st, VList(items), context).Success? ==>
              |GroupStep(mg, st, VList(items), context).value.1| == 1
  {
    var mg := MapGroup(CoreLaws.MapSeq(sid, rid, id, g), mapScalars);
    RunItemsMaps(sid, rid, id, g, st, items, ctxs);
    var run := RunGroup(mg, st, VList(items), context);
    if GroupStep(mg, st, VList(items), context).Success? {
      EmitYields(context, run.value.1, run.value.2);
    }
  }

  /** The error cases of a group: an empty group raises IndexError, a
      group whose length differs from that of `context.group` raises
      LenaRuntimeError; without *map_scalars* a scalar passes. */
  lemma MapGroupErrorsExample(sq: Element, st: Store)
    ensures MapGroupStep(MapGroup(sq, true), st, Pair(VList([]), map["group" := VList([])]))
            == Failure(PyIndexError)
    ensures MapGroupStep(MapGroup(sq, true), st, Pair(VList([VInt(1)]), map["group" := VList([])]))
            == Failure(LenaRuntimeError)
    ensures MapGroupStep(MapGroup(sq, false), st, Pair(VInt(1), map["group" := VList([])]))
            == Success((st, [Pair(VInt(1), map["group" := VList([])])]))
  {
    var empty := Pair(VList([]), map["group" := VList([])]);
    assert GetDataContext(empty) == (VList([]), map["group" := VList([])]);
    assert RunGroup(MapGroup(sq, true), st, VList([]), map["group" := VList([])]) == Success((st, [], map[]));
    var short := Pair(VList([VInt(1)]), map["group" := VList([])]);
    assert GetDataContext(short) == (VList([VInt(1)]), map["group" := VList([])]);
    var scalar := Pair(VInt(1), map["group" := VList([])]);
    assert GetDataContext(scalar) == (VInt(1), map["group" := VList([])]);
  }
}
