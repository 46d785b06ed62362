// Unnesting and altering sequences (lena/core/meta.py).

module CoreMeta {
  import opened Wrappers
  import opened CoreElements

  /** No member is a sequence of lena/core. */
  predicate NoneNested(els: seq<Element>)
  {
    forall i :: 0 <= i < |els| ==> !IsLenaSequence(els[i])
  }

  /** The members with every nested sequence replaced by its own leaves,
      in order. */
  function Leaves(els: seq<Element>): (r: seq<Element>)
    ensures NoneNested(r)
    decreases SizeAll(els)
  {
    if |els| == 0 then []
    else
      var first := if IsLenaSequence(els[0]) then
                     MembersAllSmaller(els[0]);
                     Leaves(Members(els[0]).value)
                   else [els[0]];
      first + Leaves(els[1..])
  }

  lemma MembersAllSmaller(e: Element)
    requires IsLenaSequence(e)
    ensures SizeAll(Members(e).value) < Size(e)
  {
  }

  /** `flatten(seq)`: an element, or a sequence or tuple without nested
      sequences, is returned as is; otherwise a fresh list of the leaves. */
  function Flatten(e: Element): (r: Element)
    ensures !(IsLenaSequence(e) || e.Tuple?) ==> r == e
    ensures (IsLenaSequence(e) || e.Tuple?) && NoneNested(Members(e).value) ==> r == e
    ensures r != e ==> r == List(Leaves(Members(e).value))
  {
    if !(IsLenaSequence(e) || e.Tuple?) then e
    else if NoneNested(Members(e).value) then e
    else List(Leaves(Members(e).value))
  }

  /** Flat members are their own leaves. */
  lemma {:induction false} LeavesOfFlat(els: seq<Element>)
    requires NoneNested(els)
    ensures Leaves(els) == els
    decreases |els|
  {
    if |els| > 0 {
      LeavesOfFlat(els[1..]);
    }
  }

  /** Leaves keep the order of the members: the leaves of a concatenation
      are the concatenation of the leaves. */
  lemma {:induction false} LeavesAppend(xs: seq<Element>, ys: seq<Element>)
    ensures Leaves(xs + ys) == Leaves(xs) + Leaves(ys)
    decreases |xs|
  {
    if |xs| == 0 {
      assert xs + ys == ys;
    } else {
      assert (xs + ys)[1..] == xs[1..] + ys;
      LeavesAppend(xs[1..], ys);
    }
  }

  /** What `el.alter_sequence(seq)` returns, for an element that defines
      the method. */
  type AlterHook = (Element, Element) -> Element

  /** `alter_sequence(seq)`; Python's recursion limit is the *fuel*. */
  function AlterSequence(s: Element, hook: AlterHook, fuel: nat): (r: Result<Element>)
    ensures r.Failure? ==> r.error == PyRecursionError
    decreases fuel, 1, 0
  {
    var flat := Flatten(s);
    if !(IsLenaSequence(flat) || flat.Tuple?) then
      if HasMethod(flat, "alter_sequence") then Success(hook(flat, flat)) else Success(s)
    else AlterScan(s, flat, hook, fuel, |Members(flat).value|)
  }

  /** The scan from the last member down: the first member whose
      `alter_sequence` changes the sequence restarts on the new sequence. */
  function AlterScan(orig: Element, flat: Element, hook: AlterHook, fuel: nat, k: nat): (r: Result<Element>)
    requires Members(flat).Some? && k <= |Members(flat).value|
    ensures r.Failure? ==> r.error == PyRecursionError
    decreases fuel, 0, k
  {
    if k == 0 then Success(orig)
    else
      var el := Members(flat).value[k - 1];
      if HasMethod(el, "alter_sequence") && !Same(hook(el, flat), flat) then
        if fuel == 0 then Failure(PyRecursionError)
        else AlterSequence(hook(el, flat), hook, fuel - 1)
      else AlterScan(orig, flat, hook, fuel, k - 1)
  }

  /** Nothing that defines `alter_sequence` alters anything: the original
      is returned. */
  predicate Unaltering(s: Element, hook: AlterHook)
  {
    var flat := Flatten(s);
    if !(IsLenaSequence(flat) || flat.Tuple?) then !HasMethod(flat, "alter_sequence")
    else forall i :: 0 <= i < |Members(flat).value| ==>
           var el := Members(flat).value[i];
           HasMethod(el, "alter_sequence") ==> Same(hook(el, flat), flat)
  }

  lemma AlterUnchanged(s: Element, hook: AlterHook, fuel: nat)
    requires Unaltering(s, hook)
    ensures AlterSequence(s, hook, fuel) == Success(s)
  {
    var flat := Flatten(s);
    if IsLenaSequence(flat) || flat.Tuple? {
      ScanUnchanged(s, flat, hook, fuel, |Members(flat).value|);
    }
  }

  lemma {:induction false} ScanUnchanged(orig: Element, flat: Element, hook: AlterHook, fuel: nat, k: nat)
    requires Members(flat).Some? && k <= |Members(flat).value|
    requires forall i :: 0 <= i < k ==> var el := Members(flat).value[i];
               HasMethod(el, "alter_sequence") ==> Same(hook(el, flat), flat)
    ensures AlterScan(orig, flat, hook, fuel, k) == Success(orig)
    decreases k
  {
    if k > 0 {
      ScanUnchanged(orig, flat, hook, fuel, k - 1);
    }
  }

  /** `alter_sequence` for every branch of a `Split`, in order. */
  function AlterAll(seqs: seq<Element>, hook: AlterHook, fuel: nat): (r: Result<seq<Element>>)
    ensures r.Success? ==> |r.value| == |seqs|
    ensures r.Failure? ==> r.error == PyRecursionError
  {
    if |seqs| == 0 then Success([])
    else
      var a :- AlterSequence(seqs[0], hook, fuel);
      var rest :- AlterAll(seqs[1..], hook, fuel);
      Success([a] + rest)
  }
}
