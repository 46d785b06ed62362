// Include/exclude trees that select parts of a context
// (lena/context/include_exclude_tree.py).

module IncludeExclude {
  import opened Wrappers
  import opened Values
  import opened Strings
  import opened ContextFunctions

  /** A tree: with *defaultInclude* every key is taken except the explicit *keys*;
      without it only the *keys* are taken. A subtree selects inside the
      dict value of its key. */
  datatype Tree = Tree(keys: set<string>, subtrees: map<string, Tree>, defaultInclude: bool)

  // ------------------------------------------------------------------
  // Helpers on keys

  /** `_split_key`: "" is the root key; an empty subkey is an error. */
  function SplitKey(key: string): (r: Result<seq<string>>)
    ensures key == "" ==> r == Success([""])
    ensures key != "" ==> (r.Failure? <==> "" in Split(key, '.'))
    ensures r.Failure? ==> r.error == LenaValueError
    ensures r.Success? ==> |r.value| >= 1 && Join(r.value, '.') == key
  {
    if key == "" then Success([key])
    else
      var skey := Split(key, '.');
      JoinSplit(key, '.');
      if "" in skey then Failure(LenaValueError) else Success(skey)
  }

  /** `_startswith(s1, s2)`: whether *s2* starts with *s1*, element by
      element. */
  method StartsWithSeq<T(==)>(s1: seq<T>, s2: seq<T>) returns (r: bool)
    ensures r <==> |s1| <= |s2| && s2[..|s1|] == s1
  {
    if |s2| < |s1| {
      return false;
    }
    var ind := 0;
    while ind < |s1|
      invariant 0 <= ind <= |s1|
      invariant s2[..ind] == s1[..ind]
    {
      if s2[ind] != s1[ind] {
        return false;
      }
      ind := ind + 1;
    }
    return true;
  }

  type Groups = map<string, seq<seq<string>>>

  function TailsOf(g: Groups, p: string): seq<seq<string>>
  {
    if p in g then g[p] else []
  }

  /** `_group_by_starting_prefixes`: the tails of the keys, in order, under
      their first subkeys. Keys must not be empty (the source asserts it). */
  function Group(keys: seq<seq<string>>): (g: Groups)
    requires forall i :: 0 <= i < |keys| ==> |keys[i]| > 0
    ensures forall p :: p in g <==> exists i :: 0 <= i < |keys| && keys[i][0] == p
    decreases |keys|
  {
    if |keys| == 0 then map[]
    else
      var init := keys[..|keys| - 1];
      var k := keys[|keys| - 1];
      var g0 := Group(init);
      assert forall j :: 0 <= j < |init| ==> init[j] == keys[j];
      g0[k[0] := TailsOf(g0, k[0]) + [k[1..]]]
  }

  /** Every key's tail is listed under its first subkey. */
  lemma {:induction false} GroupComplete(keys: seq<seq<string>>, i: int)
    requires forall j :: 0 <= j < |keys| ==> |keys[j]| > 0
    requires 0 <= i < |keys|
    ensures keys[i][1..] in Group(keys)[keys[i][0]]
    decreases |keys|
  {
    var init := keys[..|keys| - 1];
    if i < |keys| - 1 {
      GroupComplete(init, i);
      assert init[i] == keys[i];
    }
  }

  /** Every listed tail comes from a key. */
  lemma {:induction false} GroupSound(keys: seq<seq<string>>, p: string, t: seq<string>)
    requires forall j :: 0 <= j < |keys| ==> |keys[j]| > 0
    requires p in Group(keys) && t in Group(keys)[p]
    ensures [p] + t in keys
    decreases |keys|
  {
    var init := keys[..|keys| - 1];
    var k := keys[|keys| - 1];
    var g0 := Group(init);
    if p == k[0] && t == k[1..] {
      assert [k[0]] + k[1..] == k;
    } else {
      assert t in TailsOf(g0, p);
      GroupSound(init, p, t);
      assert forall s :: s in init ==> s in keys;
    }
  }

  // ------------------------------------------------------------------
  // Selecting parts of a context

  /** `IncludeExcludeTree.get(context)`. */
  function Get(t: Tree, context: Dict): (r: Dict)
    ensures r.Keys <= context.Keys
    ensures forall k :: k in r && k !in t.subtrees ==> r[k] == context[k]
    ensures forall k :: k in context && k !in t.subtrees && k !in t.keys ==> (k in r <==> t.defaultInclude)
    ensures forall k :: k in context && k in t.keys ==> (k in r <==> !t.defaultInclude)
    decreases t
  {
    if t.defaultInclude then
      map k | k in context && k !in t.keys && (k in t.subtrees ==> context[k].VDict?)
        :: if k in t.subtrees then VDict(Get(t.subtrees[k], context[k].m)) else context[k]
    else
      map k | k in context && (k in t.keys || (k in t.subtrees && context[k].VDict?))
        :: if k in t.keys then context[k] else VDict(Get(t.subtrees[k], context[k].m))
  }

  /** The selected part is contained in the context. */
  lemma {:induction false} GetContained(t: Tree, context: Dict)
    ensures Contained(Get(t, context), context)
    decreases t
  {
    var r := Get(t, context);
    forall k | k in r ensures k in context && ValContained(r[k], context[k]) {
      if r[k] == context[k] {
        if r[k].VDict? {
          ContainedRefl(r[k].m);
        }
      } else {
        assert k in t.subtrees && context[k].VDict?;
        GetContained(t.subtrees[k], context[k].m);
      }
    }
  }

  /** Selecting twice selects nothing more. */
  lemma {:induction false} GetIdempotent(t: Tree, context: Dict)
    ensures Get(t, Get(t, context)) == Get(t, context)
    decreases t
  {
    var r := Get(t, context);
    var rr := Get(t, r);
    forall k | k in rr ensures k in r && rr[k] == r[k] {
      if k in t.subtrees && !(k in t.keys && !t.defaultInclude) {
        GetIdempotent(t.subtrees[k], context[k].m);
      }
    }
    assert rr.Keys == r.Keys;
  }

  // ------------------------------------------------------------------
  // Building a tree

  function MaxLen(ks: seq<seq<string>>): (n: nat)
    ensures forall i :: 0 <= i < |ks| ==> |ks[i]| <= n
    ensures |ks| == 0 ==> n == 0
  {
    if |ks| == 0 then 0
    else
      var m := MaxLen(ks[1..]);
      assert forall i :: 1 <= i < |ks| ==> ks[i] == ks[1..][i - 1];
      if |ks[0]| > m then |ks[0]| else m
  }

  lemma {:induction false} MaxLenBound(ks: seq<seq<string>>, n: nat)
    requires forall i :: 0 <= i < |ks| ==> |ks[i]| <= n
    ensures MaxLen(ks) <= n
  {
    if |ks| > 0 {
      MaxLenBound(ks[1..], n);
    }
  }

  /** The non-empty tails, in order. */
  function NonEmpty(ts: seq<seq<string>>): (r: seq<seq<string>>)
    ensures forall i :: 0 <= i < |r| ==> |r[i]| > 0 && r[i] in ts
  {
    if |ts| == 0 then []
    else
      var rest := NonEmpty(ts[1..]);
      assert forall t :: t in ts[1..] ==> t in ts;
      if |ts[0]| > 0 then [ts[0]] + rest else rest
  }

  /** The includes and excludes handed to the subtree of *key*. */
  function SubIncludes(incs: seq<seq<string>>, key: string): seq<seq<string>>
    requires forall i :: 0 <= i < |incs| ==> |incs[i]| > 0
  {
    NonEmpty(TailsOf(Group(incs), key))
  }

  lemma SubKeysShorter(incs: seq<seq<string>>, excs: seq<seq<string>>, key: string)
    requires forall i :: 0 <= i < |incs| ==> |incs[i]| > 0
    requires forall i :: 0 <= i < |excs| ==> |excs[i]| > 0
    requires key in Group(incs) || key in Group(excs)
    ensures MaxLen(incs + excs) >= 1
    ensures MaxLen(SubIncludes(incs, key) + SubIncludes(excs, key)) < MaxLen(incs + excs)
  {
    var all := incs + excs;
    var m := MaxLen(all);
    var sub := SubIncludes(incs, key) + SubIncludes(excs, key);
    if key in Group(incs) {
      var i :| 0 <= i < |incs| && incs[i][0] == key;
      assert all[i] == incs[i];
    } else {
      var i :| 0 <= i < |excs| && excs[i][0] == key;
      assert all[|incs| + i] == excs[i];
    }
    forall j | 0 <= j < |sub| ensures |sub[j]| <= m - 1 {
      var t := sub[j];
      if j < |SubIncludes(incs, key)| {
        assert t in TailsOf(Group(incs), key);
        GroupSound(incs, key, t);
        var i :| 0 <= i < |incs| && incs[i] == [key] + t;
        assert all[i] == incs[i];
      } else {
        assert t in SubIncludes(excs, key);
        assert t in TailsOf(Group(excs), key);
        GroupSound(excs, key, t);
        var i :| 0 <= i < |excs| && excs[i] == [key] + t;
        assert all[|incs| + i] == excs[i];
      }
    }
    MaxLenBound(sub, m - 1);
  }

  /** `_make_include_exclude_tree(includes, excludes, is_default_include)`. */
  function MakeTree(incs: seq<seq<string>>, excs: seq<seq<string>>, incl: bool): (r: Result<Tree>)
    requires forall i :: 0 <= i < |incs| ==> |incs[i]| > 0
    requires forall i :: 0 <= i < |excs| ==> |excs[i]| > 0
    ensures r.Success? ==> r.value.defaultInclude == incl
    ensures r.Failure? ==> r.error == LenaValueError
    decreases MaxLen(incs + excs), 1
  {
    var pe := Group(excs);
    var pi := Group(incs);
    var extra := if incl then pi.Keys - pe.Keys else pe.Keys - pi.Keys;
    if extra != {} then Failure(LenaValueError)
    else
      var subkeys := if incl then pe else pi;
      var proper := ProperKeys(subkeys, if incl then pi else pe);
      var subs := map key | key in subkeys.Keys - proper ::
        SubTree(incs, excs, key, if [] in subkeys[key] then !incl else incl);
      Assemble(proper, subs, incl)
  }

  /** Keys given in full at this level and not continued on the other side:
      they become the tree's own keys. */
  function ProperKeys(subkeys: Groups, subsubs: Groups): set<string>
  {
    set key | key in subkeys && subkeys[key] == [[]] && key !in subsubs
  }

  /** The tree from its own keys and its subtrees; a failing subtree fails. */
  function Assemble(proper: set<string>, subs: map<string, Result<Tree>>, incl: bool): (r: Result<Tree>)
    ensures r.Success? ==> r.value.defaultInclude == incl
    ensures r.Failure? ==> r.error == LenaValueError
  {
    if exists key :: key in subs && subs[key].Failure? then Failure(LenaValueError)
    else Success(Tree(proper, map key | key in subs :: subs[key].value, incl))
  }

  /** The subtree for *key*, from the non-empty tails of the keys under it. */
  function SubTree(incs: seq<seq<string>>, excs: seq<seq<string>>, key: string, incl: bool): (r: Result<Tree>)
    requires forall i :: 0 <= i < |incs| ==> |incs[i]| > 0
    requires forall i :: 0 <= i < |excs| ==> |excs[i]| > 0
    requires key in Group(incs) || key in Group(excs)
    decreases MaxLen(incs + excs), 0
  {
    SubKeysShorter(incs, excs, key);
    MakeTree(SubIncludes(incs, key), SubIncludes(excs, key), incl)
  }

  /** The keys given to `make_include_exclude_tree`: one string, or several. */
  datatype KeysArg = One(key: string) | Many(keys: seq<string>)

  function KeyStrings(a: KeysArg): (r: seq<string>)
    ensures a.One? ==> r == [a.key]
  {
    match a
    case One(key) => [key]
    case Many(keys) => keys
  }

  /** Split every non-root key, failing on the first improper one. */
  function SplitAll(keys: seq<string>): (r: Result<seq<seq<string>>>)
    ensures r.Failure? ==> r.error == LenaValueError
    ensures r.Success? ==> forall i :: 0 <= i < |r.value| ==> |r.value[i]| > 0
  {
    if |keys| == 0 then Success([])
    else if keys[0] == "" then SplitAll(keys[1..])
    else
      match SplitKey(keys[0])
      case Failure(e) => Failure(e)
      case Success(k) =>
        match SplitAll(keys[1..])
        case Failure(e) => Failure(e)
        case Success(rest) => Success([k] + rest)
  }

  /** `make_include_exclude_tree(includes, excludes)`: the root key "" must be
      in exactly one of them, and decides the default. */
  function MakeIncludeExcludeTree(includes: KeysArg, excludes: KeysArg): (r: Result<Tree>)
    ensures ("" in KeyStrings(includes)) == ("" in KeyStrings(excludes)) ==> r == Failure(LenaValueError)
    ensures r.Success? ==> r.value.defaultInclude == ("" in KeyStrings(includes))
    ensures r.Failure? ==> r.error == LenaValueError
  {
    var incs := KeyStrings(includes);
    var excs := KeyStrings(excludes);
    var isDefaultInclude := "" in incs;
    if isDefaultInclude == ("" in excs) then Failure(LenaValueError)
    else
      match SplitAll(incs)
      case Failure(e) => Failure(e)
      case Success(sincs) =>
        match SplitAll(excs)
        case Failure(e) => Failure(e)
        case Success(sexcs) => MakeTree(sincs, sexcs, isDefaultInclude)
  }

  // ------------------------------------------------------------------
  // Examples from the documentation of the module

  /** Including everything except "a" and "c", and also "c.d". */
  lemma GetExample()
    ensures
      var t := Tree({"a"}, map["c" := Tree({"d"}, map[], false)], true);
      var c2 := map["a" := VInt(1), "b" := VInt(2), "c" := VDict(map["d" := VInt(3), "e" := VInt(4)])];
      Get(t, c2) == map["b" := VInt(2), "c" := VDict(map["d" := VInt(3)])]
  {
    var sub := Tree({"d"}, map[], false);
    var inner := map["d" := VInt(3), "e" := VInt(4)];
    assert Get(sub, inner) == map["d" := VInt(3)];
  }

  /** A plain include-everything tree selects the whole context, a plain
      exclude-everything tree nothing. */
  lemma GetTrivialTrees(context: Dict)
    ensures Get(Tree({}, map[], true), context) == context
    ensures Get(Tree({}, map[], false), context) == map[]
  {
  }

  /** Under a default of inclusion every include must lie within an exclude
      (and the other way round): an include with a new first subkey fails. */
  lemma MakeTreeStrayKey(incs: seq<seq<string>>, excs: seq<seq<string>>, incl: bool, i: int)
    requires forall j :: 0 <= j < |incs| ==> |incs[j]| > 0
    requires forall j :: 0 <= j < |excs| ==> |excs[j]| > 0
    requires incl ==> 0 <= i < |incs| && incs[i][0] !in Group(excs)
    requires !incl ==> 0 <= i < |excs| && excs[i][0] !in Group(incs)
    ensures MakeTree(incs, excs, incl) == Failure(LenaValueError)
  {
    if incl {
      assert incs[i][0] in Group(incs);
      assert incs[i][0] in Group(incs).Keys - Group(excs).Keys;
    } else {
      assert excs[i][0] in Group(excs);
      assert excs[i][0] in Group(excs).Keys - Group(incs).Keys;
    }
  }

  lemma GroupOne(k: seq<string>)
    requires |k| > 0
    ensures Group([k]) == map[k[0] := [k[1..]]]
  {
    assert [k][..0] == [];
    assert TailsOf(map[], k[0]) + [k[1..]] == [k[1..]];
  }

  lemma ExampleKeys()
    ensures SplitAll(["", "c.d"]) == Success([["c", "d"]])
    ensures SplitAll(["c"]) == Success([["c"]])
  {
    assert Join(["c", "d"], '.') == "c.d";
    SplitJoin(["c", "d"], '.');
    SplitNoSep("c", '.');
    assert "" !in ["c", "d"];
    assert "" !in ["c"];
    assert SplitKey("c.d") == Success(["c", "d"]);
    assert SplitKey("c") == Success(["c"]);
    assert SplitAll([]) == Success([]);
    assert SplitAll(["c.d"]) == Success([["c", "d"]] + []);
    assert [["c", "d"]] + [] == [["c", "d"]];
    assert [["c"]] + [] == [["c"]];
    assert ["", "c.d"][0] == "";
    assert ["", "c.d"][1..] == ["c.d"];
    assert ["c.d"][1..] == [];
    assert ["c"][1..] == [];
  }

  lemma ExampleSubTree()
    ensures MakeTree([["d"]], [], false) == Success(Tree({"d"}, map[], false))
  {
    GroupOne(["d"]);
    assert ["d"][1..] == [];
    var pi := map["d" := [[]]];
    assert ProperKeys(pi, map[]) == {"d"};
    assert Assemble({"d"}, map[], false) == Success(Tree({"d"}, map[], false));
  }

  lemma ExampleGroups()
    ensures Group([["c", "d"]]) == map["c" := [["d"]]]
    ensures Group([["c"]]) == map["c" := [[]]]
  {
    GroupOne(["c", "d"]);
    GroupOne(["c"]);
    assert ["c", "d"][1..] == ["d"];
    assert ["c"][1..] == [];
  }

  lemma ExampleBranch()
    ensures SubTree([["c", "d"]], [["c"]], "c", false) == Success(Tree({"d"}, map[], false))
  {
    ExampleGroups();
    assert NonEmpty([["d"]]) == [["d"]];
    assert NonEmpty([[]]) == [];
    ExampleSubTree();
  }

  lemma ExampleProper()
    ensures ProperKeys(map["c" := [[]]], map["c" := [["d"]]]) == {}
  {
  }

  lemma ExampleAssemble(s: Tree)
    ensures Assemble({}, map["c" := Success(s)], true) == Success(Tree({}, map["c" := s], true))
  {
    var subs := map["c" := Success(s)];
    assert !exists key :: key in subs && subs[key].Failure?;
    assert (map key | key in subs :: subs[key].value) == map["c" := s];
  }

  lemma ExampleRootTree()
    ensures MakeTree([["c", "d"]], [["c"]], true)
            == Success(Tree({}, map["c" := Tree({"d"}, map[], false)], true))
  {
    var incs := [["c", "d"]];
    var excs := [["c"]];
    ExampleGroups();
    ExampleBranch();
    ExampleProper();
    var pe := map["c" := [[]]];
    var pi := map["c" := [["d"]]];
    var sub := SubTree(incs, excs, "c", false);
    var subs := map key | key in pe.Keys - ProperKeys(pe, pi) ::
      SubTree(incs, excs, key, if [] in pe[key] then !true else true);
    assert pe.Keys - ProperKeys(pe, pi) == {"c"};
    assert subs.Keys == {"c"};
    assert [] in pe["c"];
    assert subs["c"] == sub;
    assert subs == map["c" := sub];
    ExampleAssemble(Tree({"d"}, map[], false));
  }

  /** The documented selection `includes=("", "c.d"), excludes="c"`. */
  lemma ExampleTree()
    ensures MakeIncludeExcludeTree(Many(["", "c.d"]), One("c"))
            == Success(Tree({}, map["c" := Tree({"d"}, map[], false)], true))
  {
    ExampleKeys();
    ExampleRootTree();
    assert "" in ["", "c.d"];
    assert "" !in ["c"];
    TreeOfSplit(Many(["", "c.d"]), One("c"), [["c", "d"]], [["c"]]);
  }

  /** With the root key in exactly one argument and every key split, the
      tree is the one made from the split keys. */
  lemma TreeOfSplit(includes: KeysArg, excludes: KeysArg, sincs: seq<seq<string>>, sexcs: seq<seq<string>>)
    requires ("" in KeyStrings(includes)) != ("" in KeyStrings(excludes))
    requires SplitAll(KeyStrings(includes)) == Success(sincs) && SplitAll(KeyStrings(excludes)) == Success(sexcs)
    ensures MakeIncludeExcludeTree(includes, excludes) == MakeTree(sincs, sexcs, "" in KeyStrings(includes))
  {
  }

  /** ... and what it selects from `{"a": 1, "b": 2, "c": {"d": 3, "e": 0}}`. */
  lemma ExampleTreeGet()
    ensures
      var t := Tree({}, map["c" := Tree({"d"}, map[], false)], true);
      Get(t, map["a" := VInt(1), "b" := VInt(2), "c" := VDict(map["d" := VInt(3), "e" := VInt(0)])])
      == map["a" := VInt(1), "b" := VInt(2), "c" := VDict(map["d" := VInt(3)])]
  {
    var sub := Tree({"d"}, map[], false);
    assert Get(sub, map["d" := VInt(3), "e" := VInt(0)]) == map["d" := VInt(3)];
  }
}
