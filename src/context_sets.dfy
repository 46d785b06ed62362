// Difference and intersection of nested contexts (lena/context/functions.py).
// A *level* limits the depth of recursion; a negative level is unbounded.

module ContextSets {
  import opened Wrappers
  import opened Values
  import opened ContextFunctions

  // ------------------------------------------------------------------
  // difference

  /** `difference(d1, d2, level)` as written: a differing key is dropped
      whenever the difference of its values is falsy, so a differing falsy
      scalar of *d1* (0, "", None, False, []) is lost. */
  function DifferenceAsWritten(d1: Val, d2: Val, level: int): (r: Val)
    ensures d1.VDict? && d2.VDict? ==> r.VDict? && r.m.Keys <= d1.m.Keys
    ensures !(d1.VDict? && d2.VDict?) ==> r == d1
    decreases d1
  {
    if !d1.VDict? || !d2.VDict? then d1
    else if PyEq(d1, d2) then EmptyDict
    else if level == 0 then d1
    else
      VDict(map k | k in d1.m.Keys
                    && (k !in d2.m
                        || (!PyEq(d1.m[k], d2.m[k])
                            && Truthy(DifferenceAsWritten(d1.m[k], d2.m[k], level - 1))))
              :: if k !in d2.m then d1.m[k] else DifferenceAsWritten(d1.m[k], d2.m[k], level - 1))
  }

  /** A differing key is dropped only when both values are dicts and their
      difference is empty, that is, when *d2*'s value holds all of *d1*'s. */
  predicate Kept(a: Val, b: Val, res: Val)
  {
    !(a.VDict? && b.VDict? && res == EmptyDict)
  }

  /** `difference(d1, d2, level)` with the drop condition the source's own
      comment describes.
      The program as written is `DifferenceAsWritten`; the rest of the model uses this corrected version. */
  function Difference(d1: Val, d2: Val, level: int): (r: Val)
    ensures d1.VDict? && d2.VDict? ==> r.VDict? && r.m.Keys <= d1.m.Keys
    ensures !(d1.VDict? && d2.VDict?) ==> r == d1
    ensures PyEq(d1, d2) && d1.VDict? ==> r == EmptyDict
    decreases d1
  {
    if !d1.VDict? || !d2.VDict? then d1
    else if PyEq(d1, d2) then EmptyDict
    else if level == 0 then d1
    else
      VDict(map k | k in d1.m.Keys
                    && (k !in d2.m
                        || (!PyEq(d1.m[k], d2.m[k])
                            && Kept(d1.m[k], d2.m[k], Difference(d1.m[k], d2.m[k], level - 1))))
              :: if k !in d2.m then d1.m[k] else Difference(d1.m[k], d2.m[k], level - 1))
  }

  lemma MergeEmptyUpdate(d: Dict)
    ensures Merge(d, map[]) == d
  {
  }

  /** The difference is what *d2* lacks: merging it back into *d2* gives a
      dictionary that contains all of *d1*, at every level. */
  lemma {:induction false} DifferenceRestores(d1: Dict, d2: Dict, level: int)
    ensures Difference(VDict(d1), VDict(d2), level).VDict?
    ensures Contained(d1, Merge(d2, Difference(VDict(d1), VDict(d2), level).m))
    decreases VDict(d1)
  {
    var diff := Difference(VDict(d1), VDict(d2), level).m;
    var r := Merge(d2, diff);
    if PyEq(VDict(d1), VDict(d2)) {
      MergeEmptyUpdate(d2);
      PyEqContained(d1, d2);
    } else if level == 0 {
      MergeContainsOther(d2, d1);
    } else {
      forall k | k in d1 ensures k in r && ValContained(d1[k], r[k]) {
        if k !in d2 {
          assert diff[k] == d1[k];
          if d1[k].VDict? {
            MergeIntoEmpty(d1[k].m);
            ContainedRefl(d1[k].m);
          }
        } else if PyEq(d1[k], d2[k]) {
          assert k !in diff;
          if d1[k].VDict? {
            PyEqContained(d1[k].m, d2[k].m);
          }
        } else if d1[k].VDict? && d2[k].VDict? {
          var sub := Difference(d1[k], d2[k], level - 1);
          DifferenceRestores(d1[k].m, d2[k].m, level - 1);
          if sub == EmptyDict {
            assert k !in diff;
            MergeEmptyUpdate(d2[k].m);
          } else {
            assert diff[k] == sub;
          }
        } else {
          assert diff[k] == d1[k];
          if d1[k].VDict? {
            MergeIntoEmpty(d1[k].m);
            ContainedRefl(d1[k].m);
          }
        }
      }
    }
  }

  /** The source drops a differing falsy value: with d1 = {"a": 0} and
      d2 = {"a": 1} the difference is empty, so d1 is not restored from it. */
  lemma DifferenceAsWrittenLosesFalsy()
    ensures
      var d1 := map["a" := VInt(0)];
      var d2 := map["a" := VInt(1)];
      DifferenceAsWritten(VDict(d1), VDict(d2), -1) == EmptyDict
      && !Contained(d1, Merge(d2, DifferenceAsWritten(VDict(d1), VDict(d2), -1).m))
      && Difference(VDict(d1), VDict(d2), -1) == VDict(d1)
  {
    var d1 := map["a" := VInt(0)];
    var d2 := map["a" := VInt(1)];
    assert !PyEq(VDict(d1), VDict(d2)) by { assert Canon(VDict(d1)).m["a"] == VInt(0); }
    assert DifferenceAsWritten(VDict(d1), VDict(d2), -1).m == map[];
    assert Merge(d2, map[]) == d2;
    var c := Difference(VDict(d1), VDict(d2), -1);
    assert "a" in c.m;
    assert c.m == d1;
  }

  /** Values equal as Python compares them do not differ: the difference
      of {"a": 1} and {"a": 1.0} is empty, and so is that of {"a": True}
      and {"a": 1}. */
  lemma DifferenceNumericEqual()
    ensures Difference(VDict(map["a" := VInt(1)]), VDict(map["a" := VReal(1.0)]), -1) == EmptyDict
    ensures Difference(VDict(map["a" := VBool(true)]), VDict(map["a" := VInt(1)]), -1) == EmptyDict
  {
    assert Canon(VDict(map["a" := VInt(1)])).m == map["a" := VInt(1)];
    assert Canon(VDict(map["a" := VReal(1.0)])).m == map["a" := VInt(1)];
    assert Canon(VDict(map["a" := VBool(true)])).m == map["a" := VInt(1)];
  }

  // ------------------------------------------------------------------
  // intersection

  /** One step of `intersection` below level 0: keep equal items, recurse
      into differing dict values unless *level* is 1, drop everything else. */
  function IntersectStep(a: Dict, b: Dict, level: int): (r: Dict)
    ensures r.Keys <= a.Keys * b.Keys
    decreases VDict(a), 1
  {
    map k | k in a && k in b
            && (PyEq(a[k], b[k]) || (level != 1 && a[k].VDict? && b[k].VDict?))
      :: if PyEq(a[k], b[k]) then a[k] else VDict(IntersectPair(a[k].m, b[k].m, level - 1))
  }

  /** `intersection(a, b, level=level)` of two dictionaries. */
  function IntersectPair(a: Dict, b: Dict, level: int): (r: Dict)
    decreases VDict(a), 2
  {
    if level == 0 then (if PyEq(VDict(b), VDict(a)) && b != map[] then a else map[])
    else IntersectStep(a, b, level)
  }

  /** Fold the remaining dictionaries into the running result. */
  function IntersectAll(res: Dict, rest: seq<Dict>, level: int): Dict
    decreases |rest|
  {
    if |rest| == 0 then res
    else
      var r := IntersectPair(res, rest[0], level);
      if r == map[] then r else IntersectAll(r, rest[1..], level)
  }

  /** `intersection(*dicts, **kwargs)`; keyword values are integer levels. */
  function Intersection(dicts: seq<Val>, kwargs: map<string, int>): (r: Result<Dict>)
    ensures r.Failure? <==>
              (exists i :: 0 <= i < |dicts| && !dicts[i].VDict?) || kwargs.Keys - {"level"} != {}
    ensures r.Failure? ==> r.error == LenaTypeError
    ensures r.Success? && |dicts| == 0 ==> r.value == map[]
  {
    if exists i :: 0 <= i < |dicts| && !dicts[i].VDict? then Failure(LenaTypeError)
    else if kwargs.Keys - {"level"} != {} then Failure(LenaTypeError)
    else if |dicts| == 0 then Success(map[])
    else
      var level := if "level" in kwargs then kwargs["level"] else -1;
      Success(IntersectAll(dicts[0].m, DictsOf(dicts[1..]), level))
  }

  function DictsOf(vs: seq<Val>): (r: seq<Dict>)
    requires forall i :: 0 <= i < |vs| ==> vs[i].VDict?
    ensures |r| == |vs|
    ensures forall i :: 0 <= i < |vs| ==> r[i] == vs[i].m
  {
    if |vs| == 0 then [] else [vs[0].m] + DictsOf(vs[1..])
  }

  /** At level 1 the intersection keeps a key only when every dictionary
      has it with a value equal to the first one's, which it keeps. */
  lemma {:induction false} IntersectAllLevel1(res: Dict, rest: seq<Dict>)
    ensures var r := IntersectAll(res, rest, 1);
            forall k :: k in r ==> k in res && r[k] == res[k]
                                   && forall j :: 0 <= j < |rest| ==> k in rest[j] && PyEq(rest[j][k], res[k])
    decreases |rest|
  {
    if |rest| > 0 {
      var p := IntersectPair(res, rest[0], 1);
      assert p == IntersectStep(res, rest[0], 1);
      assert forall k :: k in p ==> k in res && k in rest[0] && p[k] == res[k] && PyEq(rest[0][k], res[k]);
      if p != map[] {
        IntersectAllLevel1(p, rest[1..]);
        assert forall j :: 1 <= j < |rest| ==> rest[1..][j - 1] == rest[j];
      }
    }
  }

  /** Against a dictionary whose every key *d1* holds with an equal value
      (a level-1 intersection, say), the difference as written and the
      corrected one agree: no key is left whose difference could be
      falsy. */
  lemma DifferenceAgrees(d1: Dict, d2: Dict, level: int)
    requires forall k :: k in d2 ==> k in d1 && PyEq(d1[k], d2[k])
    ensures DifferenceAsWritten(VDict(d1), VDict(d2), level) == Difference(VDict(d1), VDict(d2), level)
  {
    if !PyEq(VDict(d1), VDict(d2)) && level != 0 {
      var a := DifferenceAsWritten(VDict(d1), VDict(d2), level);
      var b := Difference(VDict(d1), VDict(d2), level);
      assert a.m.Keys == b.m.Keys;
    }
  }

  lemma {:induction false} ContainedTrans(a: Dict, b: Dict, c: Dict)
    requires Contained(a, b) && Contained(b, c)
    ensures Contained(a, c)
    decreases VDict(a)
  {
    forall k | k in a ensures k in c && ValContained(a[k], c[k]) {
      if a[k].VDict? {
        ContainedTrans(a[k].m, b[k].m, c[k].m);
      }
    }
  }

  /** Every item of a pairwise intersection is contained in both inputs. */
  lemma {:induction false} IntersectPairContained(a: Dict, b: Dict, level: int)
    ensures Contained(IntersectPair(a, b, level), a)
    ensures Contained(IntersectPair(a, b, level), b)
    decreases VDict(a)
  {
    var r := IntersectPair(a, b, level);
    if level == 0 {
      if PyEq(VDict(b), VDict(a)) && b != map[] {
        ContainedRefl(a);
        PyEqContained(a, b);
      }
    } else {
      assert r == IntersectStep(a, b, level);
      forall k | k in r ensures k in a && ValContained(r[k], a[k]) && k in b && ValContained(r[k], b[k]) {
        if PyEq(a[k], b[k]) {
          if a[k].VDict? {
            ContainedRefl(a[k].m);
            PyEqContained(a[k].m, b[k].m);
          }
        } else {
          assert a[k].VDict? && b[k].VDict?;
          assert r[k] == VDict(IntersectPair(a[k].m, b[k].m, level - 1));
          IntersectPairContained(a[k].m, b[k].m, level - 1);
        }
      }
    }
  }

  lemma {:induction false} IntersectAllContained(res: Dict, rest: seq<Dict>, level: int)
    ensures Contained(IntersectAll(res, rest, level), res)
    ensures forall i :: 0 <= i < |rest| ==> Contained(IntersectAll(res, rest, level), rest[i])
    decreases |rest|
  {
    var out := IntersectAll(res, rest, level);
    if |rest| == 0 {
      ContainedRefl(res);
    } else {
      var r := IntersectPair(res, rest[0], level);
      IntersectPairContained(res, rest[0], level);
      if r == map[] {
        assert out == map[];
      } else {
        IntersectAllContained(r, rest[1..], level);
        ContainedTrans(out, r, res);
        ContainedTrans(out, r, rest[0]);
        forall i | 1 <= i < |rest| ensures Contained(out, rest[i]) {
          assert rest[i] == rest[1..][i - 1];
        }
      }
    }
  }

  /** The intersection is contained in each of the dictionaries. */
  lemma IntersectionContainedInAll(dicts: seq<Val>, kwargs: map<string, int>, i: int)
    requires Intersection(dicts, kwargs).Success?
    requires 0 <= i < |dicts|
    ensures dicts[i].VDict? && Contained(Intersection(dicts, kwargs).value, dicts[i].m)
  {
    var level := if "level" in kwargs then kwargs["level"] else -1;
    var rest := DictsOf(dicts[1..]);
    IntersectAllContained(dicts[0].m, rest, level);
    if i > 0 {
      assert dicts[i].m == rest[i - 1];
    }
  }

  /** Intersecting a dictionary with itself gives it back. */
  lemma {:induction false} IntersectPairSelf(a: Dict, level: int)
    requires a != map[] || level != 0
    ensures IntersectPair(a, a, level) == a
  {
  }

  // The documented examples, with the integer keys written as strings.

  function ExampleInner(): Dict { map["3" := VStr("3"), "4" := VStr("4")] }
  function ExampleD1(): Dict { map["1" := VStr("1"), "2" := VDict(ExampleInner())] }
  function ExampleD2(): Dict { map["2" := VDict(map["4" := VStr("4")])] }

  lemma ExampleFacts()
    ensures !PyEq(VDict(ExampleD1()), VDict(ExampleD2()))
    ensures !PyEq(VDict(ExampleInner()), ExampleD2()["2"])
    ensures "1" !in ExampleD2() && "3" !in ExampleD2()["2"].m
  {
    assert "1" in Canon(VDict(ExampleD1())).m;
    assert "3" in Canon(VDict(ExampleInner())).m;
  }

  /** One step of the intersection when the dictionaries share one key. */
  lemma IntersectOneKey(a: Dict, b: Dict, key: string, level: int)
    requires level != 0 && a.Keys * b.Keys == {key}
    ensures PyEq(a[key], b[key]) ==> IntersectPair(a, b, level) == map[key := a[key]]
    ensures !PyEq(a[key], b[key]) && level == 1 ==> IntersectPair(a, b, level) == map[]
    ensures !PyEq(a[key], b[key]) && level != 1 && a[key].VDict? && b[key].VDict? ==>
              IntersectPair(a, b, level) == map[key := VDict(IntersectPair(a[key].m, b[key].m, level - 1))]
  {
  }

  lemma ExampleKeys()
    ensures ExampleInner().Keys * ExampleD2()["2"].m.Keys == {"4"}
    ensures ExampleD1().Keys * ExampleD2().Keys == {"2"}
    ensures ExampleD1()["2"] == VDict(ExampleInner())
    ensures ExampleD2() == map["2" := VDict(ExampleD2()["2"].m)]
    ensures ExampleD2()["2"].m == map["4" := ExampleInner()["4"]]
  {
  }

  /** Two dictionaries and at most a `level` keyword: the intersection is
      their pairwise one. */
  lemma IntersectionOfTwo(a: Dict, b: Dict, kwargs: map<string, int>, level: int)
    requires kwargs.Keys <= {"level"}
    requires level == if "level" in kwargs then kwargs["level"] else -1
    ensures Intersection([VDict(a), VDict(b)], kwargs) == Success(IntersectPair(a, b, level))
  {
    var dicts := [VDict(a), VDict(b)];
    assert forall i :: 0 <= i < |dicts| ==> dicts[i].VDict?;
    assert dicts[1..] == [VDict(b)];
    assert DictsOf(dicts[1..]) == [b];
    assert [b][1..] == [];
    assert IntersectAll(a, [b], level) == IntersectPair(a, b, level);
  }

  lemma IntersectionExampleUnbounded()
    ensures Intersection([VDict(ExampleD1()), VDict(ExampleD2())], map[]) == Success(ExampleD2())
  {
    ExampleFacts();
    ExampleKeys();
    var i4 := ExampleD2()["2"].m;
    IntersectOneKey(ExampleInner(), i4, "4", -2);
    IntersectOneKey(ExampleD1(), ExampleD2(), "2", -1);
    IntersectionOfTwo(ExampleD1(), ExampleD2(), map[], -1);
  }

  lemma IntersectionExampleLevel0()
    ensures Intersection([VDict(ExampleD1()), VDict(ExampleD2())], map["level" := 0]) == Success(map[])
  {
    ExampleFacts();
    IntersectionOfTwo(ExampleD1(), ExampleD2(), map["level" := 0], 0);
  }

  lemma IntersectionExampleLevel1()
    ensures Intersection([VDict(ExampleD1()), VDict(ExampleD2())], map["level" := 1]) == Success(map[])
  {
    ExampleFacts();
    ExampleKeys();
    IntersectOneKey(ExampleD1(), ExampleD2(), "2", 1);
    IntersectionOfTwo(ExampleD1(), ExampleD2(), map["level" := 1], 1);
  }

  lemma IntersectionExampleLevel2()
    ensures Intersection([VDict(ExampleD1()), VDict(ExampleD2())], map["level" := 2]) == Success(ExampleD2())
  {
    ExampleFacts();
    ExampleKeys();
    var i4 := ExampleD2()["2"].m;
    IntersectOneKey(ExampleInner(), i4, "4", 1);
    IntersectOneKey(ExampleD1(), ExampleD2(), "2", 2);
    IntersectionOfTwo(ExampleD1(), ExampleD2(), map["level" := 2], 2);
  }
}
