// Function composition (lena/flow/compose.py) and the context manager
// applying it to the context part (lena/flow/data_context.py).

module FlowCompose {
  import opened Wrappers
  import opened Values
  import opened FlowFunctions

  /** An argument of `compose`: a callable, which may raise, or anything
      else. */
  datatype FnArg = Fn(f: Val -> Result<Val>) | NotFn(v: Val)

  /** `compose(*seq)`: the functions in the order given. */
  datatype Compose = Compose(fs: seq<Val -> Result<Val>>)

  /** `compose.__init__`: every argument must be callable and there must
      be at least one, else LenaTypeError. */
  function MakeCompose(args: seq<FnArg>): (r: Result<Compose>)
    ensures r.Success? <==> |args| > 0 && forall i :: 0 <= i < |args| ==> args[i].Fn?
    ensures r.Failure? ==> r.error == LenaTypeError
    ensures r.Success? ==> |r.value.fs| == |args| && forall i :: 0 <= i < |args| ==> r.value.fs[i] == args[i].f
  {
    if exists i :: 0 <= i < |args| && args[i].NotFn? then Failure(LenaTypeError)
    else if |args| == 0 then Failure(LenaTypeError)
    else Success(Compose(Funcs(args)))
  }

  function Funcs(args: seq<FnArg>): (r: seq<Val -> Result<Val>>)
    requires forall i :: 0 <= i < |args| ==> args[i].Fn?
    ensures |r| == |args| && forall i :: 0 <= i < |args| ==> r[i] == args[i].f
  {
    if |args| == 0 then [] else [args[0].f] + Funcs(args[1..])
  }

  /** `compose.__call__(val)`: the functions applied left to right, the
      first exception propagating. */
  function ApplyAll(fs: seq<Val -> Result<Val>>, v: Val): Result<Val>
  {
    if |fs| == 0 then Success(v)
    else
      var w :- fs[0](v);
      ApplyAll(fs[1..], w)
  }

  /** The loop of `compose.__call__`. */
  method Call(c: Compose, v: Val) returns (r: Result<Val>)
    ensures r == ApplyAll(c.fs, v)
  {
    var val := v;
    var i := 0;
    while i < |c.fs|
      invariant 0 <= i <= |c.fs|
      invariant ApplyAll(c.fs, v) == ApplyAll(c.fs[i..], val)
    {
      assert c.fs[i..][1..] == c.fs[i + 1..];
      var w := c.fs[i](val);
      if w.Failure? {
        return Failure(w.error);
      }
      val := w.value;
      i := i + 1;
    }
    return Success(val);
  }

  /** Composing a concatenation applies the first part, then the second:
      composition is associative, and one function composes to itself. */
  lemma {:induction false} ApplyAllAppend(fs: seq<Val -> Result<Val>>, gs: seq<Val -> Result<Val>>, v: Val)
    ensures ApplyAll(fs + gs, v) == (var w :- ApplyAll(fs, v); ApplyAll(gs, w))
    decreases |fs|
  {
    if |fs| == 0 {
      assert fs + gs == gs;
    } else {
      assert (fs + gs)[1..] == fs[1..] + gs;
      var w := fs[0](v);
      if w.Success? {
        ApplyAllAppend(fs[1..], gs, w.value);
      }
    }
  }

  lemma ApplyOne(f: Val -> Result<Val>, v: Val)
    ensures ApplyAll([f], v) == f(v)
  {
    assert [f][1..] == [];
  }

  function Add1(v: Val): Result<Val>
  {
    if v.VInt? then Success(VInt(v.i + 1)) else Failure(PyTypeError)
  }

  function Mul2(v: Val): Result<Val>
  {
    if v.VInt? then Success(VInt(2 * v.i)) else Failure(PyTypeError)
  }

  /** `compose(add1, mul2)(1) == 4`, `compose(add1, mul2, add1)(1) == 5`,
      `compose(add1)(1) == 2`; `compose()` and `compose(add1, 2)` raise. */
  lemma ComposeExample()
    ensures ApplyAll([Add1, Mul2], VInt(1)) == Success(VInt(4))
    ensures ApplyAll([Add1, Mul2, Add1], VInt(1)) == Success(VInt(5))
    ensures ApplyAll([Add1], VInt(1)) == Success(VInt(2))
    ensures MakeCompose([]) == Failure(LenaTypeError)
    ensures MakeCompose([Fn(Add1), NotFn(VInt(2))]) == Failure(LenaTypeError)
  {
    ApplyOne(Add1, VInt(1));
    ApplyOne(Mul2, VInt(2));
    ApplyAllAppend([Add1], [Mul2], VInt(1));
    assert [Add1] + [Mul2] == [Add1, Mul2];
    ApplyAllAppend([Add1, Mul2], [Add1], VInt(1));
    assert [Add1, Mul2] + [Add1] == [Add1, Mul2, Add1];
    ApplyOne(Add1, VInt(4));
    assert [Fn(Add1), NotFn(VInt(2))][1].NotFn?;
  }

  // ------------------------------------------------------------------
  // Context

  /** `Context(*seq)`: a composition applied to the context part. */
  function MakeContextEl(args: seq<FnArg>): (r: Result<Compose>)
    ensures r == MakeCompose(args)
    ensures |args| == 0 ==> r == Failure(LenaTypeError)
  {
    MakeCompose(args)
  }

  /** `Context.__call__(val)`: the data part unchanged, the functions
      applied to the context (an empty one for a bare value), and the two
      returned as a tuple. */
  function ContextCall(c: Compose, val: Val): (r: Result<Val>)
    ensures r.Success? ==> r.value.VTuple? && |r.value.items| == 2 && r.value.items[0] == GetData(val)
    ensures r.Success? <==> ApplyAll(c.fs, VDict(GetContext(val))).Success?
    ensures r.Success? ==> r.value.items[1] == ApplyAll(c.fs, VDict(GetContext(val))).value
  {
    var (data, context) := GetDataContext(val);
    var newContext :- ApplyAll(c.fs, VDict(context));
    Success(VTuple([data, newContext]))
  }

  /** When the functions map dictionaries to dictionaries, the result is
      a (data, context) pair. */
  lemma ContextCallPair(c: Compose, val: Val)
    requires ApplyAll(c.fs, VDict(GetContext(val))).Success?
    requires ApplyAll(c.fs, VDict(GetContext(val))).value.VDict?
    ensures ContextCall(c, val).Success? && HasContext(ContextCall(c, val).value)
    ensures GetData(ContextCall(c, val).value) == GetData(val)
  {
  }

  function InsertVal(x: string): Val -> Result<Val>
  {
    (ctx: Val) => if ctx.VDict? then Success(VDict(ctx.m["val" := VStr(x)])) else Failure(PyTypeError)
  }

  /** `Context(insert "a", insert "b")((None, {})) == (None, {"val": "b"})`. */
  lemma ContextExample()
    ensures ContextCall(Compose([InsertVal("a"), InsertVal("b")]), Pair(VNone, map[]))
            == Success(Pair(VNone, map["val" := VStr("b")]))
  {
    var fs := [InsertVal("a"), InsertVal("b")];
    ApplyAllAppend([InsertVal("a")], [InsertVal("b")], VDict(map[]));
    assert [InsertVal("a")] + [InsertVal("b")] == fs;
    ApplyOne(InsertVal("a"), VDict(map[]));
    ApplyOne(InsertVal("b"), VDict(map["val" := VStr("a")]));
    assert map["val" := VStr("a")]["val" := VStr("b")] == map["val" := VStr("b")];
  }
}
