// Merging the common heads of sequences (lena/meta/merge.py).

module MetaMerge {
  import opened Wrappers
  import opened Values
  import opened CoreElements
  import opened CoreMeta
  import opened CoreBuild

  /** `type(a) == type(b)` for two sequences of lena/core. */
  predicate SameKind(a: Element, b: Element)
  {
    (a.Sequence? && b.Sequence?) || (a.Source? && b.Source?)
    || (a.FillSeq? && b.FillSeq?) || (a.FillComputeSeq? && b.FillComputeSeq?)
  }

  predicate AllLenaSequences(seqs: seq<Element>)
  {
    forall i :: 0 <= i < |seqs| ==> IsLenaSequence(seqs[i])
  }

  /** `len(set(type(seq) for seq in seqs)) == 1`. */
  predicate AllSameKind(seqs: seq<Element>)
    requires |seqs| > 0
  {
    forall i :: 0 <= i < |seqs| ==> SameKind(seqs[i], seqs[0])
  }

  /** `x in xs`: some item is equal to *x*. */
  predicate Contains(xs: seq<Element>, x: Element)
  {
    exists j :: 0 <= j < |xs| && Same(xs[j], x)
  }

  /** The members of the sequence *s*. */
  function Elems(s: Element): seq<Element>
    requires IsLenaSequence(s)
  {
    Members(s).value
  }

  /** `type(seqs[0])(*head)`. */
  function Rebuild(s0: Element, head: seq<Element>, nextId: nat): (r: Result<(Element, nat)>)
    requires IsLenaSequence(s0)
    ensures r.Success? ==> SameKind(r.value.0, s0) && r.value.0.id == nextId
    ensures r.Failure? ==> r.error == LenaTypeError
  {
    match s0
    case Sequence(_, _) => MakeSequence(head, nextId)
    case Source(_, _, _) => MakeSource(head, nextId)
    case FillSeq(_, _, _) => MakeFillSeq(head, nextId)
    case FillComputeSeq(_, _, _, _, _) => MakeFillComputeSeq(head, nextId)
  }

  /** The distinct elements at index *ind* of `seqs[..k]`, in order of
      first appearance; indexing a shorter sequence raises IndexError. */
  function Collect(seqs: seq<Element>, ind: nat, k: nat): (r: Result<seq<Element>>)
    requires AllLenaSequences(seqs) && 1 <= k <= |seqs| && ind < |Elems(seqs[0])|
    ensures r.Failure? ==> r.error == PyIndexError
    decreases k
  {
    if k == 1 then Success([Elems(seqs[0])[ind]])
    else
      var els :- Collect(seqs, ind, k - 1);
      var s := Elems(seqs[k - 1]);
      if ind >= |s| then Failure(PyIndexError)
      else if Contains(els, s[ind]) then Success(els)
      else Success(els + [s[ind]])
  }

  /** The collection succeeds exactly when every sequence is long
      enough, and it starts with the first sequence's element. */
  lemma {:induction false} CollectSucceeds(seqs: seq<Element>, ind: nat, k: nat)
    requires AllLenaSequences(seqs) && 1 <= k <= |seqs| && ind < |Elems(seqs[0])|
    ensures Collect(seqs, ind, k).Success? <==> forall j :: 0 <= j < k ==> ind < |Elems(seqs[j])|
    ensures Collect(seqs, ind, k).Success? ==>
              |Collect(seqs, ind, k).value| >= 1 && Collect(seqs, ind, k).value[0] == Elems(seqs[0])[ind]
    decreases k
  {
    if k > 1 {
      CollectSucceeds(seqs, ind, k - 1);
    }
  }

  /** Equal elements are merged: the collection holds an element equal to
      the element of each sequence (and no two equal elements, see
      `CollectDistinct`). */
  lemma {:induction false} CollectCovers(seqs: seq<Element>, ind: nat, k: nat, j: nat)
    requires AllLenaSequences(seqs) && 1 <= j < k <= |seqs| && ind < |Elems(seqs[0])|
    requires Collect(seqs, ind, k).Success?
    ensures ind < |Elems(seqs[j])| && Contains(Collect(seqs, ind, k).value, Elems(seqs[j])[ind])
    decreases k
  {
    var prev := Collect(seqs, ind, k - 1).value;
    var s := Elems(seqs[k - 1]);
    if j < k - 1 {
      CollectCovers(seqs, ind, k - 1, j);
      if !Contains(prev, s[ind]) {
        ContainsExtend(prev, s[ind], Elems(seqs[j])[ind]);
      }
    } else if !Contains(prev, s[ind]) {
      SameRefl(s[ind]);
      assert (prev + [s[ind]])[|prev|] == s[ind];
    }
  }

  lemma ContainsExtend(xs: seq<Element>, y: Element, x: Element)
    requires Contains(xs, x)
    ensures Contains(xs + [y], x)
  {
    var w :| 0 <= w < |xs| && Same(xs[w], x);
    assert (xs + [y])[w] == xs[w];
  }

  /** ... and no two equal elements. */
  lemma {:induction false} CollectDistinct(seqs: seq<Element>, ind: nat, k: nat)
    requires AllLenaSequences(seqs) && 1 <= k <= |seqs| && ind < |Elems(seqs[0])|
    requires Collect(seqs, ind, k).Success?
    ensures var els := Collect(seqs, ind, k).value;
            forall a, b :: 0 <= a < b < |els| ==> !Same(els[a], els[b])
    decreases k
  {
    if k > 1 {
      CollectDistinct(seqs, ind, k - 1);
      var prev := Collect(seqs, ind, k - 1).value;
      var s := Elems(seqs[k - 1]);
      if !Contains(prev, s[ind]) {
        var els := prev + [s[ind]];
        assert Collect(seqs, ind, k).value == els;
        forall a, b | 0 <= a < b < |els| ensures !Same(els[a], els[b]) {
          if b < |prev| {
            assert els[a] == prev[a] && els[b] == prev[b];
          } else {
            assert els[a] == prev[a] && els[b] == s[ind];
          }
        }
      }
    }
  }

  /** The members of each sequence. */
  function Rows(seqs: seq<Element>): (r: seq<seq<Element>>)
    requires AllLenaSequences(seqs)
    ensures |r| == |seqs| && forall j :: 0 <= j < |seqs| ==> r[j] == Elems(seqs[j])
  {
    seq(|seqs|, j requires 0 <= j < |seqs| => Elems(seqs[j]))
  }

  /** Every row is longer than *ind*. */
  predicate LongerThan(rows: seq<seq<Element>>, ind: nat)
  {
    forall j :: 0 <= j < |rows| ==> ind < |rows[j]|
  }

  /** The non-empty tails after index *ind* of those of `rows[..k]` whose
      element at *ind* equals *el*. */
  function TailsOf(rows: seq<seq<Element>>, ind: nat, el: Element, k: nat): (r: seq<Element>)
    requires k <= |rows| && LongerThan(rows, ind)
  {
    if k == 0 then []
    else
      var s := rows[k - 1];
      var rest := TailsOf(rows, ind, el, k - 1);
      if Same(s[ind], el) && |s[ind + 1..]| > 0 then rest + [List(s[ind + 1..])] else rest
  }

  /** Every tail collected is a non-empty list. */
  lemma {:induction false} TailsAreLists(rows: seq<seq<Element>>, ind: nat, el: Element, k: nat)
    requires k <= |rows| && LongerThan(rows, ind)
    ensures forall t :: 0 <= t < |TailsOf(rows, ind, el, k)| ==>
              TailsOf(rows, ind, el, k)[t].List? && |TailsOf(rows, ind, el, k)[t].els| > 0
  {
    if k > 0 {
      TailsAreLists(rows, ind, el, k - 1);
    }
  }

  /** One merge per distinct element: the element followed by the tails
      of the sequences that hold it. `merge_heads(el_merges)` receives one
      argument, so it returns the list of tails unchanged. */
  function MergesOf(seqs: seq<Element>, ind: nat, els: seq<Element>): (r: seq<Element>)
    requires AllLenaSequences(seqs)
    requires forall j :: 0 <= j < |seqs| ==> ind < |Elems(seqs[j])|
    ensures |r| == |els|
    ensures forall i :: 0 <= i < |els| ==> r[i] == Tuple([els[i]] + TailsOf(Rows(seqs), ind, els[i], |seqs|))
  {
    seq(|els|, i requires 0 <= i < |els| => Tuple([els[i]] + TailsOf(Rows(seqs), ind, els[i], |seqs|)))
  }

  /** The buffer size and the copy flag that `Split(merges)` takes by
      default. */
  const DefaultBufsize: Val := VInt(1000)
  const DefaultCopyBuf: Val := VBool(true)

  /** The main loop from index *ind* on, with the common *head* kept so
      far. */
  function MergeFrom(seqs: seq<Element>, ind: nat, head: seq<Element>, hook: AlterHook, fuel: nat, nextId: nat)
    : (r: Result<(Element, nat)>)
    requires |seqs| > 0 && AllLenaSequences(seqs) && ind <= |Elems(seqs[0])|
    decreases |Elems(seqs[0])| - ind
  {
    var s0 := Elems(seqs[0]);
    if ind == |s0| then Rebuild(seqs[0], head, nextId)
    else
      var els :- Collect(seqs, ind, |seqs|);
      CollectSucceeds(seqs, ind, |seqs|);
      if |els| == 1 then MergeFrom(seqs, ind + 1, head + [s0[ind]], hook, fuel, nextId)
      else
        SplitWith(seqs[0], head, MergesOf(seqs, ind, els), hook, fuel, nextId)
  }

  /** `Split(merges)` appended to the common head, and the sequence
      rebuilt. */
  function SplitWith(s0: Element, head: seq<Element>, merges: seq<Element>, hook: AlterHook, fuel: nat, nextId: nat)
    : (r: Result<(Element, nat)>)
    requires IsLenaSequence(s0)
  {
    var (split, next) :- MakeSplit(List(merges), DefaultBufsize, DefaultCopyBuf, hook, fuel, nextId);
    Rebuild(s0, head + [split], next)
  }

  /** `merge_heads(*seqs)`; *hook* and *fuel* are passed on to the
      `alter_sequence` of the `Split` it builds. */
  function MergeHeads(seqs: seq<Element>, hook: AlterHook, fuel: nat, nextId: nat): (r: Result<(Element, nat)>)
    requires AllLenaSequences(seqs)
    ensures |seqs| == 1 ==> r == Success((seqs[0], nextId))
    ensures |seqs| == 0 ==> r == Failure(LenaTypeError)
    ensures |seqs| > 1 && !AllSameKind(seqs) ==> r == Failure(LenaTypeError)
  {
    if |seqs| == 1 then Success((seqs[0], nextId))
    else if |seqs| == 0 then Failure(LenaTypeError)
    else if !AllSameKind(seqs) then Failure(LenaTypeError)
    else MergeFrom(seqs, 0, [], hook, fuel, nextId)
  }

  // ------------------------------------------------------------------
  // The loops of merge_heads

  /** The collection of distinct elements at index *ind*. */
  method CollectLoop(seqs: seq<Element>, ind: nat) returns (r: Result<seq<Element>>)
    requires AllLenaSequences(seqs) && 1 <= |seqs| && ind < |Elems(seqs[0])|
    ensures r == Collect(seqs, ind, |seqs|)
  {
    var els := [Elems(seqs[0])[ind]];
    var j := 1;
    while j < |seqs|
      invariant 1 <= j <= |seqs|
      invariant Collect(seqs, ind, j) == Success(els)
    {
      var s := Elems(seqs[j]);
      if ind >= |s| {
        CollectSucceeds(seqs, ind, |seqs|);
        return Failure(PyIndexError);
      }
      if !Contains(els, s[ind]) {
        els := els + [s[ind]];
      }
      j := j + 1;
    }
    return Success(els);
  }

  /** The tails of the sequences, given by their members *rows*, that
      hold *el* at index *ind*. */
  method TailsLoop(rows: seq<seq<Element>>, ind: nat, el: Element) returns (tails: seq<Element>)
    requires LongerThan(rows, ind)
    ensures tails == TailsOf(rows, ind, el, |rows|)
  {
    tails := [];
    var j := 0;
    while j < |rows|
      invariant 0 <= j <= |rows|
      invariant tails == TailsOf(rows, ind, el, j)
    {
      var s := rows[j];
      if Same(s[ind], el) && |s[ind + 1..]| > 0 {
        tails := tails + [List(s[ind + 1..])];
      }
      j := j + 1;
    }
  }

  /** One merge per distinct element. */
  method MergesLoop(seqs: seq<Element>, ind: nat, els: seq<Element>) returns (merges: seq<Element>)
    requires AllLenaSequences(seqs)
    requires forall j :: 0 <= j < |seqs| ==> ind < |Elems(seqs[j])|
    ensures merges == MergesOf(seqs, ind, els)
  {
    var rows := Rows(seqs);
    merges := [];
    var i := 0;
    while i < |els|
      invariant 0 <= i <= |els|
      invariant merges == MergesOf(seqs, ind, els[..i])
    {
      var tails := TailsLoop(rows, ind, els[i]);
      assert els[..i + 1][i] == els[i];
      merges := merges + [Tuple([els[i]] + tails)];
      i := i + 1;
    }
    assert els[..i] == els;
  }

  /** `merge_heads(*seqs)` with its loops. */
  method Merge(seqs: seq<Element>, hook: AlterHook, fuel: nat, nextId: nat) returns (r: Result<(Element, nat)>)
    requires AllLenaSequences(seqs)
    ensures r == MergeHeads(seqs, hook, fuel, nextId)
  {
    if |seqs| == 1 {
      return Success((seqs[0], nextId));
    }
    if |seqs| == 0 || !AllSameKind(seqs) {
      return Failure(LenaTypeError);
    }
    var s0 := Elems(seqs[0]);
    var head: seq<Element> := [];
    var ind := 0;
    while ind < |s0|
      invariant 0 <= ind <= |s0|
      invariant MergeHeads(seqs, hook, fuel, nextId) == MergeFrom(seqs, ind, head, hook, fuel, nextId)
    {
      var collected := CollectLoop(seqs, ind);
      if collected.Failure? {
        return Failure(collected.error);
      }
      var els := collected.value;
      CollectSucceeds(seqs, ind, |seqs|);
      if |els| > 1 {
        var merges := MergesLoop(seqs, ind, els);
        return SplitWith(seqs[0], head, merges, hook, fuel, nextId);
      }
      head := head + [s0[ind]];
      ind := ind + 1;
    }
    return Rebuild(seqs[0], head, nextId);
  }

  // ------------------------------------------------------------------
  // Properties

  /** All sequences hold equal elements at every index of the first. */
  predicate AgreeUpTo(seqs: seq<Element>, n: nat)
    requires AllLenaSequences(seqs) && |seqs| > 0
  {
    forall j, i :: 0 <= j < |seqs| && 0 <= i < n ==> AgreeAt(seqs, j, i)
  }

  predicate AgreeAt(seqs: seq<Element>, j: nat, i: nat)
    requires AllLenaSequences(seqs) && j < |seqs|
  {
    i < |Elems(seqs[0])| && i < |Elems(seqs[j])| && Same(Elems(seqs[0])[i], Elems(seqs[j])[i])
  }

  lemma {:induction false} CollectAgreeing(seqs: seq<Element>, ind: nat, k: nat)
    requires AllLenaSequences(seqs) && 1 <= k <= |seqs| && ind < |Elems(seqs[0])|
    requires AgreeUpTo(seqs, ind + 1)
    ensures Collect(seqs, ind, k) == Success([Elems(seqs[0])[ind]])
    decreases k
  {
    if k > 1 {
      CollectAgreeing(seqs, ind, k - 1);
      assert AgreeAt(seqs, k - 1, ind);
      var x := Elems(seqs[0])[ind];
      assert Same([x][0], Elems(seqs[k - 1])[ind]);
      assert Contains([x], Elems(seqs[k - 1])[ind]);
    }
  }

  /** Up to the first difference, the loop only extends the head. */
  lemma {:induction false} MergeFromAgreeing(seqs: seq<Element>, ind: nat, n: nat, hook: AlterHook, fuel: nat, nextId: nat)
    requires |seqs| > 0 && AllLenaSequences(seqs) && ind <= n <= |Elems(seqs[0])|
    requires AgreeUpTo(seqs, n)
    ensures MergeFrom(seqs, ind, Elems(seqs[0])[..ind], hook, fuel, nextId)
            == MergeFrom(seqs, n, Elems(seqs[0])[..n], hook, fuel, nextId)
    decreases n - ind
  {
    if ind < n {
      var s0 := Elems(seqs[0]);
      assert AgreeUpTo(seqs, ind + 1) by {
        forall j, i | 0 <= j < |seqs| && 0 <= i < ind + 1 ensures AgreeAt(seqs, j, i) {
        }
      }
      CollectAgreeing(seqs, ind, |seqs|);
      assert s0[..ind] + [s0[ind]] == s0[..ind + 1];
      MergeFromAgreeing(seqs, ind + 1, n, hook, fuel, nextId);
    }
  }

  /** Merging sequences that agree everywhere rebuilds the first one from
      its own elements. */
  lemma MergeEqual(seqs: seq<Element>, hook: AlterHook, fuel: nat, nextId: nat)
    requires |seqs| > 1 && AllLenaSequences(seqs) && AllSameKind(seqs)
    requires AgreeUpTo(seqs, |Elems(seqs[0])|)
    ensures MergeHeads(seqs, hook, fuel, nextId) == Rebuild(seqs[0], Elems(seqs[0]), nextId)
  {
    var s0 := Elems(seqs[0]);
    MergeFromAgreeing(seqs, 0, |s0|, hook, fuel, nextId);
    assert s0[..0] == [] && s0[..|s0|] == s0;
  }

  /** For sources that agree everywhere the merge equals the first source
      whenever that one is a valid `Source`. */
  lemma MergeEqualSources(seqs: seq<Element>, hook: AlterHook, fuel: nat, nextId: nat)
    requires |seqs| > 1 && AllLenaSequences(seqs) && AllSameKind(seqs) && seqs[0].Source?
    requires AgreeUpTo(seqs, |Elems(seqs[0])|)
    requires MakeSource(seqs[0].args, nextId).Success?
    ensures MergeHeads(seqs, hook, fuel, nextId).Success?
    ensures Same(MergeHeads(seqs, hook, fuel, nextId).value.0, seqs[0])
  {
    MergeEqual(seqs, hook, fuel, nextId);
    AllSameRefl(seqs[0].args);
  }

  /** At the first index where the sequences differ, the common head is
      kept and the distinct elements become the branches of one `Split`,
      which ends the rebuilt sequence. */
  lemma MergeAtDifference(seqs: seq<Element>, d: nat, hook: AlterHook, fuel: nat, nextId: nat)
    requires |seqs| > 1 && AllLenaSequences(seqs) && AllSameKind(seqs)
    requires d < |Elems(seqs[0])| && AgreeUpTo(seqs, d)
    requires forall j :: 0 <= j < |seqs| ==> d < |Elems(seqs[j])|
    requires Collect(seqs, d, |seqs|).Success? && |Collect(seqs, d, |seqs|).value| > 1
    ensures var els := Collect(seqs, d, |seqs|).value;
            var split := MakeSplit(List(MergesOf(seqs, d, els)), DefaultBufsize, DefaultCopyBuf, hook, fuel, nextId);
            MergeHeads(seqs, hook, fuel, nextId)
            == if split.Failure? then Failure(split.error)
               else Rebuild(seqs[0], Elems(seqs[0])[..d] + [split.value.0], split.value.1)
  {
    MergeFromAgreeing(seqs, 0, d, hook, fuel, nextId);
    assert Elems(seqs[0])[..0] == [];
  }

  /** A merge whose tuple holds a tail cannot become a branch: the tail is
      a plain list, which no sequence accepts as an element. */
  lemma TupleWithTailRejected(el: Element, tails: seq<Element>, hook: AlterHook, fuel: nat, nextId: nat)
    requires !IsLenaSequence(el) && !HasMethod(el, "alter_sequence")
    requires !IsFillComputeEl(el) && !IsFillRequestEl(el)
    requires |tails| > 0 && forall t :: 0 <= t < |tails| ==> tails[t].List?
    ensures AlterSequence(Tuple([el] + tails), hook, fuel) == Success(Tuple([el] + tails))
    ensures SeqWithType(Tuple([el] + tails), nextId) == Failure(LenaTypeError)
  {
    var m := [el] + tails;
    assert m[1] == tails[0];
    assert forall i :: 1 <= i < |m| ==> m[i] == tails[i - 1];
    assert NoneNested(m);
    AlterUnchanged(Tuple(m), hook, fuel);
    assert !AnyFillComputeEl(m);
    assert !AnyFillRequestEl(m);
    assert SequenceArgs(m) == m;
  }
}
