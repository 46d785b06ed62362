// `GroupBy` (lena/flow/group_by.py): values collected into groups by key.

module FlowGroupBy {
  import opened Wrappers
  import opened Values
  import opened FlowFunctions
  import opened ContextFunctions

  /** The `group_by` argument: a callable, a string, or anything else. */
  datatype GroupByArg = KeyFunction(f: Val -> Result<Val>) | KeyString(s: string) | KeyOther(v: Val)

  /** How a key is computed from a value. */
  datatype KeyFn = ByFunction(f: Val -> Result<Val>) | ByPath(path: string)

  /** `GroupBy.__init__`: a callable is used directly, a string looks up
      that path in the context, anything else raises LenaTypeError. */
  function MakeKeyFn(arg: GroupByArg): (r: Result<KeyFn>)
    ensures r.Failure? <==> arg.KeyOther?
    ensures r.Failure? ==> r.error == LenaTypeError
    ensures arg.KeyFunction? ==> r == Success(ByFunction(arg.f))
    ensures arg.KeyString? ==> r == Success(ByPath(arg.s))
  {
    match arg
    case KeyFunction(f) => Success(ByFunction(f))
    case KeyString(s) => Success(ByPath(s))
    case KeyOther(_) => Failure(LenaTypeError)
  }

  /** The key of a value; a missing path raises LenaKeyError. */
  function KeyOf(kf: KeyFn, val: Val): Result<Val>
  {
    match kf
    case ByFunction(f) => f(val)
    case ByPath(p) => GetRecursively(VDict(GetContext(val)), VStr(p), None)
  }

  /** The group key of a value: an unhashable key raises TypeError. */
  function GroupKey(kf: KeyFn, val: Val): (r: Result<Val>)
    ensures r.Success? <==> KeyOf(kf, val).Success? && Hashable(KeyOf(kf, val).value)
    ensures r.Success? ==> r.value == KeyOf(kf, val).value
    ensures KeyOf(kf, val).Failure? ==> r == KeyOf(kf, val)
    ensures KeyOf(kf, val).Success? && !Hashable(KeyOf(kf, val).value) ==> r == Failure(PyTypeError)
  {
    var k :- KeyOf(kf, val);
    if Hashable(k) then Success(k) else Failure(PyTypeError)
  }

  /** The number of values in the groups listed in *keys*. */
  function Total(keys: seq<Val>, groups: map<Val, seq<Val>>): nat
    requires forall k :: k in keys ==> k in groups
  {
    if |keys| == 0 then 0 else |groups[keys[0]]| + Total(keys[1..], groups)
  }

  /** No two listed keys are equal as Python compares them. */
  predicate Distinct(keys: seq<Val>)
  {
    forall i, j :: 0 <= i < j < |keys| ==> !PyEq(keys[i], keys[j])
  }

  /** The listed key equal to *k* as Python compares them, if any: a
      dictionary finds an existing key by `==` (so 1, 1.0 and True find
      the same one) and keeps the key it was first given. */
  function Find(keys: seq<Val>, k: Val): (r: Option<Val>)
    ensures r.Some? <==> exists i :: 0 <= i < |keys| && PyEq(keys[i], k)
    ensures r.Some? ==> r.value in keys && PyEq(r.value, k)
    ensures k in keys ==> r.Some?
  {
    if |keys| == 0 then None
    else if PyEq(keys[0], k) then Some(keys[0])
    else
      var r := Find(keys[1..], k);
      assert forall i :: 1 <= i < |keys| ==> keys[i] == keys[1..][i - 1];
      r
  }

  /** Adding a value to an existing group adds one to the total. */
  lemma {:induction false} TotalGrow(keys: seq<Val>, groups: map<Val, seq<Val>>, k: Val, v: Val)
    requires forall x :: x in keys ==> x in groups
    requires Distinct(keys) && k in keys
    ensures Total(keys, groups[k := groups[k] + [v]]) == Total(keys, groups) + 1
    decreases |keys|
  {
    var g2 := groups[k := groups[k] + [v]];
    if keys[0] == k {
      assert k !in keys[1..] by {
        forall j | 0 <= j < |keys[1..]| ensures keys[1..][j] != k {
          assert !PyEq(keys[0], keys[j + 1]);
        }
      }
      TotalSame(keys[1..], groups, g2);
    } else {
      TotalGrow(keys[1..], groups, k, v);
    }
  }

  /** Groups outside the listed keys do not count. */
  lemma {:induction false} TotalSame(keys: seq<Val>, g1: map<Val, seq<Val>>, g2: map<Val, seq<Val>>)
    requires forall x :: x in keys ==> x in g1 && x in g2 && g1[x] == g2[x]
    ensures Total(keys, g1) == Total(keys, g2)
    decreases |keys|
  {
    if |keys| > 0 {
      TotalSame(keys[1..], g1, g2);
    }
  }

  /** A new key's group of one adds one to the total. */
  lemma {:induction false} TotalNew(keys: seq<Val>, groups: map<Val, seq<Val>>, k: Val, v: Val)
    requires forall x :: x in keys ==> x in groups
    requires k !in keys
    ensures Total(keys + [k], groups[k := [v]]) == Total(keys, groups) + 1
    decreases |keys|
  {
    var g2 := groups[k := [v]];
    if |keys| == 0 {
      assert keys + [k] == [k];
      assert [k][1..] == [];
    } else {
      assert (keys + [k])[1..] == keys[1..] + [k];
      TotalNew(keys[1..], groups, k, v);
    }
  }

  /** The keys listed are those of the groups, each once. */
  ghost predicate WellFormed(keys: seq<Val>, groups: map<Val, seq<Val>>)
  {
    Distinct(keys) && (forall k :: k in groups <==> k in keys)
  }

  /** `groups[key].append(val)` on the group of the listed key equal to
      *key*, or `groups[key] = [val]` for a new key. */
  function Insert(keys: seq<Val>, groups: map<Val, seq<Val>>, k: Val, v: Val): (seq<Val>, map<Val, seq<Val>>)
  {
    match Find(keys, k)
    case Some(k0) => (keys, groups[k0 := (if k0 in groups then groups[k0] else []) + [v]])
    case None => (keys + [k], groups[k := [v]])
  }

  /** The key under which `Insert` files a value. */
  function Slot(keys: seq<Val>, k: Val): (r: Val)
    ensures PyEq(r, k)
  {
    match Find(keys, k)
    case Some(k0) => k0
    case None => k
  }

  /** Inserting keeps the keys listed once each, adds the value at the end
      of the group of the key equal to its key (a new group when there is
      none), leaves the other groups alone, lists a new key last, and adds
      one to the total. */
  lemma InsertGrows(keys: seq<Val>, groups: map<Val, seq<Val>>, k: Val, v: Val)
    requires WellFormed(keys, groups)
    ensures var (keys2, groups2) := Insert(keys, groups, k, v);
            var s := Slot(keys, k);
            WellFormed(keys2, groups2)
            && (s in groups <==> exists x :: x in groups && PyEq(x, k))
            && s in groups2 && groups2[s] == (if s in groups then groups[s] else []) + [v]
            && (forall x :: x in groups && x != s ==> x in groups2 && groups2[x] == groups[x])
            && keys2[..|keys|] == keys
            && Total(keys2, groups2) == Total(keys, groups) + 1
  {
    match Find(keys, k)
    case Some(k0) =>
      TotalGrow(keys, groups, k0, v);
    case None =>
      assert k !in keys;
      TotalNew(keys, groups, k, v);
      assert (keys + [k])[..|keys|] == keys;
      var keys2 := keys + [k];
      forall i, j | 0 <= i < j < |keys2| ensures !PyEq(keys2[i], keys2[j]) {
        if j == |keys| {
          assert keys2[j] == k && keys2[i] == keys[i];
        } else {
          assert keys2[i] == keys[i] && keys2[j] == keys[j];
        }
      }
      forall x | x in groups ensures !PyEq(x, k) {
        var i :| 0 <= i < |keys| && keys[i] == x;
      }
  }

  /** Updates with every value in turn, the first key error raised. */
  function AddAll(kf: KeyFn, keys: seq<Val>, groups: map<Val, seq<Val>>, vals: seq<Val>)
    : Result<(seq<Val>, map<Val, seq<Val>>)>
    decreases |vals|
  {
    if |vals| == 0 then Success((keys, groups))
    else
      var k :- GroupKey(kf, vals[0]);
      var (keys2, groups2) := Insert(keys, groups, k, vals[0]);
      AddAll(kf, keys2, groups2, vals[1..])
  }

  /** After adding values, the groups hold all of them besides what they
      held, and keys already listed keep their places. */
  lemma {:induction false} AddAllGrows(kf: KeyFn, keys: seq<Val>, groups: map<Val, seq<Val>>, vals: seq<Val>)
    requires WellFormed(keys, groups)
    requires AddAll(kf, keys, groups, vals).Success?
    ensures var (keys2, groups2) := AddAll(kf, keys, groups, vals).value;
            WellFormed(keys2, groups2)
            && Total(keys2, groups2) == Total(keys, groups) + |vals|
            && |keys2| >= |keys| && keys2[..|keys|] == keys
    decreases |vals|
  {
    if |vals| > 0 {
      var k := GroupKey(kf, vals[0]).value;
      InsertGrows(keys, groups, k, vals[0]);
      var (keys1, groups1) := Insert(keys, groups, k, vals[0]);
      assert AddAll(kf, keys, groups, vals) == AddAll(kf, keys1, groups1, vals[1..]);
      AddAllGrows(kf, keys1, groups1, vals[1..]);
      PrefixOfPrefix(AddAll(kf, keys1, groups1, vals[1..]).value.0, keys1, keys);
    }
  }

  lemma PrefixOfPrefix(c: seq<Val>, b: seq<Val>, a: seq<Val>)
    requires |c| >= |b| && c[..|b|] == b && |b| >= |a| && b[..|a|] == a
    ensures c[..|a|] == a
  {
    assert c[..|b|][..|a|] == c[..|a|];
  }

  /** `GroupBy(group_by)`: the groups, keyed in the order keys first
      appeared (the order of a Python dictionary). */
  class GroupBy {
    const keyFn: KeyFn
    var keys: seq<Val>
    var groups: map<Val, seq<Val>>

    ghost predicate Valid()
      reads this
    {
      WellFormed(keys, groups)
    }

    /** How many values the groups hold. */
    ghost function Count(): nat
      requires Valid()
      reads this
    {
      Total(keys, groups)
    }

    constructor (keyFn: KeyFn)
      ensures Valid() && this.keyFn == keyFn && keys == [] && groups == map[]
    {
      this.keyFn := keyFn;
      keys := [];
      groups := map[];
    }

    /** `update(val)`: the value is added to the group of its key; a key
        that cannot be computed or hashed changes nothing. */
    method Update(val: Val) returns (r: Result<()>)
      requires Valid()
      modifies this
      ensures Valid()
      ensures r.Failure? <==> GroupKey(keyFn, val).Failure?
      ensures r.Failure? ==> r.error == GroupKey(keyFn, val).error && keys == old(keys) && groups == old(groups)
      ensures r.Success? ==> (keys, groups) == Insert(old(keys), old(groups), GroupKey(keyFn, val).value, val)
      ensures r.Success? ==> Count() == old(Count()) + 1
    {
      var key := GroupKey(keyFn, val);
      if key.Failure? {
        return Failure(key.error);
      }
      InsertGrows(keys, groups, key.value, val);
      keys, groups := Insert(keys, groups, key.value, val).0, Insert(keys, groups, key.value, val).1;
      return Success(());
    }

    /** `clear()`: no groups are left. */
    method Clear()
      requires Valid()
      modifies this
      ensures Valid() && keys == [] && groups == map[] && Count() == 0
    {
      keys := [];
      groups := map[];
    }
  }

  function Parity(v: Val): Result<Val>
  {
    if v.VInt? then Success(VInt(v.i % 2)) else Failure(PyTypeError)
  }

  function Listed(v: Val): Result<Val>
  {
    Success(VList([v]))
  }

  /** A key function returning a list makes every update fail and
      leaves the groups empty. */
  method UnhashableExample() returns (r: Result<()>, count: nat)
    ensures r == Failure(PyTypeError) && count == 0
  {
    var g := new GroupBy(ByFunction(Listed));
    r := g.Update(VInt(1));
    count := |g.keys|;
  }

  /** Grouping 1, 2, 3 by parity: odd values in one group in their
      order, even in another, odd first. */
  method GroupByExample() returns (keys: seq<Val>, odd: seq<Val>, even: seq<Val>)
    ensures keys == [VInt(1), VInt(0)]
    ensures odd == [VInt(1), VInt(3)] && even == [VInt(2)]
  {
    var g := new GroupBy(ByFunction(Parity));
    var r1 := g.Update(VInt(1));
    var r2 := g.Update(VInt(2));
    var r3 := g.Update(VInt(3));
    keys := g.keys;
    odd := g.groups[VInt(1)];
    even := g.groups[VInt(0)];
  }

  /** A single listed key finds every key equal to it. */
  lemma FindOnly(k0: Val, k: Val)
    requires PyEq(k0, k)
    ensures Find([k0], k) == Some(k0)
  {
  }

  /** Three values whose keys are equal as Python compares them go into
      one group, filed under the first of them. */
  lemma GroupEqualKeys(a: Val, b: Val, c: Val)
    requires PyEq(a, b) && PyEq(a, c)
    ensures var (k1, g1) := Insert([], map[], a, a);
            var (k2, g2) := Insert(k1, g1, b, b);
            var (k3, g3) := Insert(k2, g2, c, c);
            k3 == [a] && a in g3 && g3[a] == [a, b, c]
  {
    FindOnly(a, b);
    FindOnly(a, c);
    assert [a] + [b] + [c] == [a, b, c];
  }

  /** Keys 1, True and 1.0 are one dictionary key: `update` with the three
      values, grouped by themselves, makes one group, filed under the key
      seen first. */
  lemma NumericKeysExample()
    ensures var (k1, g1) := Insert([], map[], VInt(1), VInt(1));
            var (k2, g2) := Insert(k1, g1, VBool(true), VBool(true));
            var (k3, g3) := Insert(k2, g2, VReal(1.0), VReal(1.0));
            k3 == [VInt(1)] && g3[VInt(1)] == [VInt(1), VBool(true), VReal(1.0)]
  {
    PyEqExamples();
    GroupEqualKeys(VInt(1), VBool(true), VReal(1.0));
  }
}
