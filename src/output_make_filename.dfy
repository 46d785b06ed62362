// Setting the file name, extension and directory of a value's output
// context from format strings (lena/output/make_filename.py).

module OutputMakeFilename {
  import opened Wrappers
  import opened Values
  import opened Strings
  import opened ContextFunctions
  import opened ContextFormat
  import opened FlowFunctions

  /** A prepared `MakeFilename`: a formatter for each of *filename*,
      *dirname* and *fileext* that was given, and the *overwrite* flag. */
  datatype MakeFilename = MakeFilename(filename: Option<Formatter>, dirname: Option<Formatter>,
                                       fileext: Option<Formatter>, overwrite: bool)

  /** One optional format argument: None is absent, a string is prepared
      by `format_context`, anything else is a LenaTypeError. */
  function FormatterArg(arg: Val): (r: Result<Option<Formatter>>)
    ensures arg.VNone? ==> r == Success(None)
    ensures !arg.VNone? && !arg.VStr? ==> r == Failure(LenaTypeError)
    ensures arg.VStr? ==> (r.Success? <==> FormatContext(arg).Success?)
    ensures arg.VStr? && r.Success? ==> r.value == Some(FormatContext(arg).value)
    ensures arg.VStr? && r.Failure? ==> r.error == FormatContext(arg).error
  {
    if arg.VNone? then Success(None)
    else if !arg.VStr? then Failure(LenaTypeError)
    else
      var f :- FormatContext(arg);
      Success(Some(f))
  }

  /** `MakeFilename.__init__(filename, dirname, fileext, overwrite)`: at
      least one format argument must be given (LenaTypeError); they are
      checked in the order filename, dirname, fileext. */
  function NewMakeFilename(filename: Val, dirname: Val, fileext: Val, overwrite: Val): (r: Result<MakeFilename>)
    ensures filename.VNone? && dirname.VNone? && fileext.VNone? ==> r == Failure(LenaTypeError)
    ensures !filename.VNone? && !filename.VStr? ==> r == Failure(LenaTypeError)
    ensures r.Success? <==>
              && !(filename.VNone? && dirname.VNone? && fileext.VNone?)
              && FormatterArg(filename).Success? && FormatterArg(dirname).Success? && FormatterArg(fileext).Success?
    ensures r.Success? ==>
              && r.value.filename == FormatterArg(filename).value
              && r.value.dirname == FormatterArg(dirname).value
              && r.value.fileext == FormatterArg(fileext).value
              && r.value.overwrite == Truthy(overwrite)
              && (r.value.filename.Some? || r.value.dirname.Some? || r.value.fileext.Some?)
  {
    if filename.VNone? && dirname.VNone? && fileext.VNone? then Failure(LenaTypeError)
    else
      var fn :- FormatterArg(filename);
      var dn :- FormatterArg(dirname);
      var fe :- FormatterArg(fileext);
      Success(MakeFilename(fn, dn, fe, Truthy(overwrite)))
  }

  /** The keys `__call__` sets, in its order. */
  const OutputKeys: seq<string> := ["filename", "fileext", "dirname"]

  /** The formatter for one output key. */
  function FormatterOf(mf: MakeFilename, key: string): (f: Option<Formatter>)
    ensures key !in OutputKeys ==> f == None
  {
    if key == "filename" then mf.filename
    else if key == "fileext" then mf.fileext
    else if key == "dirname" then mf.dirname
    else None
  }

  /** Python's `key in container` for a string key: a dictionary key, a
      substring, or a member of a list or tuple; anything else is a
      TypeError. */
  function PyIn(key: string, container: Val): (r: Result<bool>)
    ensures container.VDict? ==> r == Success(key in container.m)
    ensures (container.VList? || container.VTuple?) ==> r == Success(VStr(key) in container.items)
    ensures r.Failure? <==> !(container.VDict? || container.VStr? || container.VList? || container.VTuple?)
  {
    match container
    case VDict(m) => Success(key in m)
    case VStr(s) => Success(IsSubstring(key, s))
    case VList(items) => Success(VStr(key) in items)
    case VTuple(items) => Success(VStr(key) in items)
    case _ => Failure(PyTypeError)
  }

  /** `context.output` with *key* set to *s*, as `update_recursively`
      merges `{"output": {key: s}}` into the context. */
  function SetOutput(context: Dict, key: string, s: string): (c: Dict)
    ensures c.Keys == context.Keys + {"output"}
    ensures forall k :: k in context && k != "output" ==> c[k] == context[k]
    ensures c["output"].VDict? && key in c["output"].m && c["output"].m[key] == VStr(s)
    ensures "output" in context && context["output"].VDict? ==>
              c["output"].m.Keys == context["output"].m.Keys + {key}
              && forall k :: k in context["output"].m && k != key ==> c["output"].m[k] == context["output"].m[k]
    ensures !("output" in context && context["output"].VDict?) ==> c["output"] == VDict(map[key := VStr(s)])
  {
    Merge(context, map["output" := VDict(map[key := VStr(s)])])
  }

  /** Setting a key adds it to an output dictionary, or replaces a
      missing or non-dictionary output by one holding the key alone. */
  lemma SetOutputUpdate(context: Dict, key: string, s: string)
    ensures "output" in context && context["output"].VDict? ==>
              SetOutput(context, key, s) == context["output" := VDict(context["output"].m[key := VStr(s)])]
    ensures !("output" in context && context["output"].VDict?) ==>
              SetOutput(context, key, s) == context["output" := VDict(map[key := VStr(s)])]
  {
    var c := SetOutput(context, key, s);
    if "output" in context && context["output"].VDict? {
      assert c["output"].m == context["output"].m[key := VStr(s)];
    }
  }

  /** The merge `__call__` does is what `update_recursively` computes. */
  lemma UpdateSetsOutput(context: Dict, key: string, s: string)
    ensures UpdateRecursively(VDict(context), VDict(map["output" := VDict(map[key := VStr(s)])]), None)
            == Success(VDict(SetOutput(context, key, s)))
  {
  }

  /** The outcome of one key of `__call__`: Some(new context) when the key
      was set, None when it was skipped (already present without
      *overwrite*, no formatter, or a context that lacks a key the format
      needs). */
  function Step(mf: MakeFilename, key: string, context: Dict, pyStr: Val -> string): (r: Result<Option<Dict>>)
    // a key without a formatter is skipped
    ensures FormatterOf(mf, key).None? && r.Success? ==> r.value.None?
    // a key that is set holds the formatted text
    ensures r.Success? && r.value.Some? ==>
              FormatterOf(mf, key).Some? && Format(FormatterOf(mf, key).value, VDict(context), pyStr).Success? &&
              r.value.value == SetOutput(context, key, Format(FormatterOf(mf, key).value, VDict(context), pyStr).value)
  {
    var present :- if "output" in context then PyIn(key, context["output"]) else Success(false);
    if present && !mf.overwrite then Success(None)
    else
      match FormatterOf(mf, key)
      case None => Success(None)
      case Some(f) => Formatted(Format(f, VDict(context), pyStr), context, key)
  }

  /** A formatted text sets the key; a missing context key skips it; any
      other error is raised. */
  function Formatted(text: Result<string>, context: Dict, key: string): (r: Result<Option<Dict>>)
    ensures text == Failure(LenaKeyError) ==> r == Success(None)
    ensures r.Success? && r.value.Some? ==> text.Success? && r.value.value == SetOutput(context, key, text.value)
  {
    match text
    case Failure(e) => if e == LenaKeyError then Success(None) else Failure(e)
    case Success(s) => Success(Some(SetOutput(context, key, s)))
  }

  /** The keys in turn, each seeing the context the previous ones left;
      the flag says whether any was set. */
  function Steps(mf: MakeFilename, keys: seq<string>, context: Dict, pyStr: Val -> string): (r: Result<(Dict, bool)>)
    // when no key is set the context is unchanged
    ensures r.Success? && !r.value.1 ==> r.value.0 == context
    decreases |keys|
  {
    if |keys| == 0 then Success((context, false))
    else
      var step :- Step(mf, keys[0], context, pyStr);
      var next := if step.Some? then step.value else context;
      var (c, modified) :- Steps(mf, keys[1..], next, pyStr);
      Success((c, modified || step.Some?))
  }

  /** `MakeFilename.__call__(value)`: a value whose output context was
      modified is returned as its data with the new context; any other
      value is returned as it is. */
  function Call(mf: MakeFilename, value: Val, pyStr: Val -> string): (r: Result<Val>)
    // the data is kept
    ensures r.Success? ==> GetData(r.value) == GetData(value)
  {
    var (c, modified) :- Steps(mf, OutputKeys, GetContext(value), pyStr);
    if modified then Success(Pair(GetData(value), c)) else Success(value)
  }

  /** Adding the flag of earlier keys to the outcome of the later ones. */
  function Later(r: Result<(Dict, bool)>, modified: bool): Result<(Dict, bool)>
  {
    match r
    case Failure(e) => Failure(e)
    case Success((c, m)) => Success((c, m || modified))
  }

  /** `MakeFilename.__call__`: the loop over the three keys. */
  method CallLoop(mf: MakeFilename, value: Val, pyStr: Val -> string) returns (r: Result<Val>)
    ensures r == Call(mf, value, pyStr)
  {
    var context := GetContext(value);
    var modified := false;
    var i := 0;
    while i < |OutputKeys|
      invariant 0 <= i <= |OutputKeys|
      invariant Steps(mf, OutputKeys, GetContext(value), pyStr) == Later(Steps(mf, OutputKeys[i..], context, pyStr), modified)
    {
      var key := OutputKeys[i];
      assert OutputKeys[i..][1..] == OutputKeys[i + 1..];
      var step := Step(mf, key, context, pyStr);
      if step.Failure? {
        return Failure(step.error);
      }
      if step.value.Some? {
        context := step.value.value;
        modified := true;
      }
      i := i + 1;
    }
    if modified {
      r := Success(Pair(GetData(value), context));
    } else {
      r := Success(value);
    }
  }

  // ------------------------------------------------------------------
  // Properties of one key

  /** A key already in the output dictionary is kept unless *overwrite* is
      set. */
  lemma KeepsExisting(mf: MakeFilename, key: string, context: Dict, pyStr: Val -> string)
    requires "output" in context && context["output"].VDict? && key in context["output"].m
    requires !mf.overwrite
    ensures Step(mf, key, context, pyStr) == Success(None)
  {
  }

  /** A context lacking a key that the format needs leaves the output
      key unset (when `output`, if present, supports the membership
      test). */
  lemma SkipsMissingKey(mf: MakeFilename, key: string, context: Dict, pyStr: Val -> string)
    requires "output" in context ==> PyIn(key, context["output"]).Success?
    requires FormatterOf(mf, key).Some?
    requires Format(FormatterOf(mf, key).value, VDict(context), pyStr) == Failure(LenaKeyError)
    ensures Step(mf, key, context, pyStr).Success?
    ensures Step(mf, key, context, pyStr).value.None?
  {
  }

  /** A key is set exactly when it is absent (or *overwrite* is set), it
      has a formatter and the context formats; it is then the formatted
      text, and the rest of the context stays. */
  lemma StepSets(mf: MakeFilename, key: string, context: Dict, pyStr: Val -> string)
    requires Step(mf, key, context, pyStr).Success?
    ensures var r := Step(mf, key, context, pyStr).value;
            r.Some? <==>
              && (mf.overwrite || !("output" in context && PyIn(key, context["output"]) == Success(true)))
              && FormatterOf(mf, key).Some?
              && Format(FormatterOf(mf, key).value, VDict(context), pyStr).Success?
    ensures var r := Step(mf, key, context, pyStr).value;
            r.Some? ==>
              var s := Format(FormatterOf(mf, key).value, VDict(context), pyStr).value;
              && r.value["output"].VDict? && r.value["output"].m[key] == VStr(s)
              && forall k :: k in context && k != "output" ==> k in r.value && r.value[k] == context[k]
  {
  }

  /** Only a failing membership test or a failing format other than a
      missing key stops `__call__`. */
  lemma StepFails(mf: MakeFilename, key: string, context: Dict, pyStr: Val -> string)
    requires Step(mf, key, context, pyStr).Failure?
    ensures var e := Step(mf, key, context, pyStr).error;
            || ("output" in context && PyIn(key, context["output"]) == Failure(e) && e == PyTypeError)
            || (FormatterOf(mf, key).Some? && Format(FormatterOf(mf, key).value, VDict(context), pyStr) == Failure(e)
                && e != LenaKeyError)
  {
  }

  // ------------------------------------------------------------------
  // Properties of a call

  /** Keys other than `output` pass through every step unchanged, and the
      flag is set exactly when some step set its key. */
  lemma {:induction false} StepsKeep(mf: MakeFilename, keys: seq<string>, context: Dict, pyStr: Val -> string)
    requires Steps(mf, keys, context, pyStr).Success?
    ensures var (c, modified) := Steps(mf, keys, context, pyStr).value;
            && (!modified ==> c == context)
            && context.Keys <= c.Keys
            && forall k :: k in context && k != "output" ==> c[k] == context[k]
    decreases |keys|
  {
    if |keys| > 0 {
      var step := Step(mf, keys[0], context, pyStr).value;
      var next := if step.Some? then step.value else context;
      if step.Some? {
        StepSets(mf, keys[0], context, pyStr);
      }
      StepsKeep(mf, keys[1..], next, pyStr);
    }
  }

  /** No key is set exactly when every step, run on the context as it
      was given, leaves its key unset. */
  lemma {:induction false} StepsNoneSet(mf: MakeFilename, keys: seq<string>, context: Dict, pyStr: Val -> string)
    requires Steps(mf, keys, context, pyStr).Success?
    ensures !Steps(mf, keys, context, pyStr).value.1 <==>
              forall i :: 0 <= i < |keys| ==> Step(mf, keys[i], context, pyStr) == Success(None)
    decreases |keys|
  {
    if |keys| > 0 {
      var step := Step(mf, keys[0], context, pyStr).value;
      var next := if step.Some? then step.value else context;
      StepsNoneSet(mf, keys[1..], next, pyStr);
      assert forall i :: 1 <= i < |keys| ==> keys[1..][i - 1] == keys[i];
    }
  }

  /** A call keeps the data. When no key is set (every key present without
      *overwrite*, unformattable or without a format) the very value is
      returned; otherwise the data is paired with the new context, which
      has an output dictionary and keeps every key but `output`. */
  lemma CallKeepsData(mf: MakeFilename, value: Val, pyStr: Val -> string)
    requires Call(mf, value, pyStr).Success?
    ensures var r := Call(mf, value, pyStr).value;
            && GetData(r) == GetData(value)
            && (r == value || (HasContext(r) && GetContext(r) != GetContext(value)))
            && GetContext(value).Keys <= GetContext(r).Keys
            && forall k :: k in GetContext(value) && k != "output" ==> GetContext(r)[k] == GetContext(value)[k]
    ensures var r := Call(mf, value, pyStr).value;
            var noneSet := forall i :: 0 <= i < |OutputKeys| ==> Step(mf, OutputKeys[i], GetContext(value), pyStr) == Success(None);
            && (noneSet ==> r == value)
            && (!noneSet ==> HasContext(r) && "output" in GetContext(r) && GetContext(r)["output"].VDict?
                             && r == Pair(GetData(value), GetContext(r)))
  {
    StepsNoneSet(mf, OutputKeys, GetContext(value), pyStr);
    var context := GetContext(value);
    StepsKeep(mf, OutputKeys, context, pyStr);
    var (c, modified) := Steps(mf, OutputKeys, context, pyStr).value;
    PairRoundTrip(GetData(value), c, value);
    if modified {
      ModifiedHasOutput(mf, OutputKeys, context, pyStr);
    }
  }

  /** After a key was set the context has an output dictionary. */
  lemma {:induction false} ModifiedHasOutput(mf: MakeFilename, keys: seq<string>, context: Dict, pyStr: Val -> string)
    requires Steps(mf, keys, context, pyStr).Success? && Steps(mf, keys, context, pyStr).value.1
    ensures var c := Steps(mf, keys, context, pyStr).value.0;
            "output" in c && c["output"].VDict?
    decreases |keys|
  {
    var step := Step(mf, keys[0], context, pyStr).value;
    var next := if step.Some? then step.value else context;
    if step.Some? {
      OutputStays(mf, keys[1..], next, pyStr);
    } else {
      ModifiedHasOutput(mf, keys[1..], next, pyStr);
    }
  }

  /** Later steps keep the output dictionary a dictionary. */
  lemma {:induction false} OutputStays(mf: MakeFilename, keys: seq<string>, context: Dict, pyStr: Val -> string)
    requires Steps(mf, keys, context, pyStr).Success?
    requires "output" in context && context["output"].VDict?
    ensures var c := Steps(mf, keys, context, pyStr).value.0;
            "output" in c && c["output"].VDict?
    decreases |keys|
  {
    if |keys| > 0 {
      var step := Step(mf, keys[0], context, pyStr).value;
      var next := if step.Some? then step.value else context;
      OutputStays(mf, keys[1..], next, pyStr);
    }
  }

  // ------------------------------------------------------------------
  // Examples

  /** A text without braces, one literal piece per character. */
  function LitPieces(t: string): (ps: seq<Piece>)
    ensures |ps| == |t|
    ensures forall i :: 0 <= i < |t| ==> ps[i] == Lit(t[i])
  {
    seq(|t|, i requires 0 <= i < |t| => Lit(t[i]))
  }

  /** Such a text renders, parses and formats as itself, without keys. */
  lemma {:induction false} LitPiecesText(t: string)
    requires '{' !in t && '}' !in t
    ensures RenderDouble(LitPieces(t)) == t && Skeleton(LitPieces(t)) == t && Names(LitPieces(t)) == []
    ensures Fill(LitPieces(t), []) == t
    decreases |t|
  {
    if |t| > 0 {
      var ps := LitPieces(t);
      assert ps[1..] == LitPieces(t[1..]);
      assert '{' !in t[1..] && '}' !in t[1..] by {
        assert forall c :: c in t[1..] ==> c in t;
      }
      LitPiecesText(t[1..]);
      assert [t[0]] + t[1..] == t;
    }
  }

  /** A format string without braces prepares a formatter that always
      gives that text. */
  lemma PlainText(t: string, context: Val, pyStr: Val -> string)
    requires '{' !in t && '}' !in t
    ensures FormatContext(VStr(t)) == Success(Formatter(t, []))
    ensures Format(Formatter(t, []), context, pyStr) == Success(t)
  {
    var ps := LitPieces(t);
    LitPiecesText(t);
    FormatContextRender(ps);
    PyFormatSkeleton(ps, []);
    assert Strs([], pyStr) == [];
  }

  /** `MakeFilename(filename=name, fileext=ext)` on a value without a
      context: the data is paired with an output context holding both. */
  lemma NoContextExample(name: string, ext: string, data: Val, pyStr: Val -> string)
    requires '{' !in name && '}' !in name && '{' !in ext && '}' !in ext
    requires !HasContext(data)
    ensures NewMakeFilename(VStr(name), VNone, VStr(ext), VBool(false)).Success?
    ensures Call(NewMakeFilename(VStr(name), VNone, VStr(ext), VBool(false)).value, data, pyStr)
            == Success(Pair(data, map["output" := VDict(map["filename" := VStr(name), "fileext" := VStr(ext)])]))
  {
    PlainText(name, VDict(map[]), pyStr);
    PlainText(ext, VDict(map[]), pyStr);
    var mf := MakeFilename(Some(Formatter(name, [])), None, Some(Formatter(ext, [])), false);
    assert NewMakeFilename(VStr(name), VNone, VStr(ext), VBool(false)) == Success(mf);
    NoContextSteps(mf, name, ext, pyStr);
  }

  lemma NoContextSteps(mf: MakeFilename, name: string, ext: string, pyStr: Val -> string)
    requires '{' !in name && '}' !in name && '{' !in ext && '}' !in ext
    requires mf == MakeFilename(Some(Formatter(name, [])), None, Some(Formatter(ext, [])), false)
    ensures Steps(mf, OutputKeys, map[], pyStr)
            == Success((map["output" := VDict(map["filename" := VStr(name), "fileext" := VStr(ext)])], true))
  {
    var c1 := SetOutput(map[], "filename", name);
    PlainText(name, VDict(map[]), pyStr);
    SetOutputUpdate(map[], "filename", name);
    assert Step(mf, "filename", map[], pyStr) == Success(Some(c1));
    var c2 := SetOutput(c1, "fileext", ext);
    PlainText(ext, VDict(c1), pyStr);
    SetOutputUpdate(c1, "fileext", ext);
    assert Step(mf, "fileext", c1, pyStr) == Success(Some(c2));
    assert Step(mf, "dirname", c2, pyStr) == Success(None);
    StepsThree(mf, map[], pyStr, Some(c1), Some(c2), None);
    assert c2 == map["output" := VDict(map["filename" := VStr(name), "fileext" := VStr(ext)])];
  }

  /** The loop over the three output keys, one step at a time. */
  lemma StepsThree(mf: MakeFilename, c0: Dict, pyStr: Val -> string, o1: Option<Dict>, o2: Option<Dict>, o3: Option<Dict>)
    requires Step(mf, "filename", c0, pyStr) == Success(o1)
    requires Step(mf, "fileext", if o1.Some? then o1.value else c0, pyStr) == Success(o2)
    requires Step(mf, "dirname", if o2.Some? then o2.value else if o1.Some? then o1.value else c0, pyStr) == Success(o3)
    ensures Steps(mf, OutputKeys, c0, pyStr)
            == Success((if o3.Some? then o3.value else if o2.Some? then o2.value else if o1.Some? then o1.value else c0,
                        o1.Some? || o2.Some? || o3.Some?))
  {
    assert OutputKeys[1..] == ["fileext", "dirname"];
    assert OutputKeys[1..][1..] == ["dirname"];
    assert OutputKeys[1..][1..][1..] == [];
  }

  /** A file name already in the output context is kept, and the value
      is returned as it is. */
  lemma ExistingKept(name: string, prior: string, data: Val, pyStr: Val -> string)
    requires '{' !in name && '}' !in name
    ensures var value := Pair(data, map["output" := VDict(map["filename" := VStr(prior)])]);
            && NewMakeFilename(VStr(name), VNone, VNone, VBool(false)).Success?
            && Call(NewMakeFilename(VStr(name), VNone, VNone, VBool(false)).value, value, pyStr) == Success(value)
  {
    var context := map["output" := VDict(map["filename" := VStr(prior)])];
    var value := Pair(data, context);
    PairRoundTrip(data, context, value);
    var keep := MakeFilename(Some(Formatter(name, [])), None, None, false);
    PlainText(name, VDict(context), pyStr);
    assert NewMakeFilename(VStr(name), VNone, VNone, VBool(false)) == Success(keep);
    assert OutputKeys[1..][1..][1..] == [];
    assert Step(keep, "filename", context, pyStr) == Success(None);
    assert Steps(keep, OutputKeys, context, pyStr) == Success((context, false));
  }

  /** With *overwrite*, a file name already in the output context is
      replaced. */
  lemma ExistingReplaced(name: string, prior: string, data: Val, pyStr: Val -> string)
    requires '{' !in name && '}' !in name
    ensures var value := Pair(data, map["output" := VDict(map["filename" := VStr(prior)])]);
            && NewMakeFilename(VStr(name), VNone, VNone, VBool(true)).Success?
            && Call(NewMakeFilename(VStr(name), VNone, VNone, VBool(true)).value, value, pyStr)
               == Success(Pair(data, map["output" := VDict(map["filename" := VStr(name)])]))
  {
    var context := map["output" := VDict(map["filename" := VStr(prior)])];
    var value := Pair(data, context);
    PairRoundTrip(data, context, value);
    PlainText(name, VDict(context), pyStr);
    var over := MakeFilename(Some(Formatter(name, [])), None, None, true);
    assert NewMakeFilename(VStr(name), VNone, VNone, VBool(true)) == Success(over);
    assert OutputKeys[1..][1..][1..] == [];
    var c := SetOutput(context, "filename", name);
    SetOutputUpdate(context, "filename", name);
    assert map["filename" := VStr(prior)]["filename" := VStr(name)] == map["filename" := VStr(name)];
    assert c == map["output" := VDict(map["filename" := VStr(name)])];
    assert Step(over, "filename", context, pyStr) == Success(Some(c));
    assert Steps(over, OutputKeys, context, pyStr) == Success((c, true));
  }

  /** The format string "{{key}}" prepares the formatter of one field. */
  lemma FieldParse(key: string)
    requires key != "" && forall i :: 0 <= i < |key| ==> key[i] !in "{}!:."
    ensures FormatContext(VStr(RenderDouble([Field(key, '}')]))) == Success(Formatter("{}", [key]))
  {
    var ps := [Field(key, '}')];
    OneField(key);
    FormatContextRender(ps);
  }

  /** The pieces of "{{key}}". */
  lemma OneField(key: string)
    ensures Skeleton([Field(key, '}')]) == "{}" && Names([Field(key, '}')]) == [key]
  {
    var ps := [Field(key, '}')];
    assert ps[1..] == [];
    assert Names(ps) == [key] + Names([]);
    assert [key] + [] == [key];
    assert Skeleton(ps) == "{" + ['}'] + Skeleton([]);
  }

  /** That formatter gives the string stored under *key*. */
  lemma FieldFormat(key: string, v: string, pyStr: Val -> string)
    requires key != "" && forall i :: 0 <= i < |key| ==> key[i] !in "{}!:."
    requires forall x :: ScalarStr(x).Some? ==> pyStr(x) == ScalarStr(x).value
    ensures Format(Formatter("{}", [key]), VDict(map[key := VStr(v)]), pyStr) == Success(v)
  {
    var ps := [Field(key, '}')];
    assert '.' !in key by {
      forall i | 0 <= i < |key| ensures key[i] != '.' {
        assert key[i] !in "{}!:.";
      }
    }
    assert [key][1..] == [];
    OneField(key);
    GetPlainKey(map[key := VStr(v)], key);
    assert GetRecursively(VDict(map[key := VStr(v)]), VStr([key][0]), None) == Success(VStr(v));
    assert LookupAll(VDict(map[key := VStr(v)]), [key][1..]) == Success([]);
    assert [VStr(v)] + [] == [VStr(v)];
    assert LookupAll(VDict(map[key := VStr(v)]), [key]) == Success([VStr(v)]);
    assert Strs([VStr(v)], pyStr) == [v];
    PyFormatSkeleton(ps, [v]);
    assert Fill(ps, [v]) == v;
  }

  /** `MakeFilename(filename="{{key}}")` on a value whose context has a
      string under *key*: the file name is that string. */
  lemma FormattingExample(key: string, v: string, data: Val, pyStr: Val -> string)
    requires key != "" && key != "output" && forall i :: 0 <= i < |key| ==> key[i] !in "{}!:."
    requires forall x :: ScalarStr(x).Some? ==> pyStr(x) == ScalarStr(x).value
    ensures var value := Pair(data, map[key := VStr(v)]);
            && NewMakeFilename(VStr(RenderDouble([Field(key, '}')])), VNone, VNone, VBool(false)).Success?
            && Call(NewMakeFilename(VStr(RenderDouble([Field(key, '}')])), VNone, VNone, VBool(false)).value, value, pyStr)
               == Success(Pair(data, map[key := VStr(v), "output" := VDict(map["filename" := VStr(v)])]))
  {
    var context := map[key := VStr(v)];
    FieldParse(key);
    FieldFormat(key, v, pyStr);
    var mf := MakeFilename(Some(Formatter("{}", [key])), None, None, false);
    assert NewMakeFilename(VStr(RenderDouble([Field(key, '}')])), VNone, VNone, VBool(false)) == Success(mf);
    var c := SetOutput(context, "filename", v);
    SetOutputUpdate(context, "filename", v);
    assert Step(mf, "filename", context, pyStr) == Success(Some(c));
    assert Step(mf, "fileext", c, pyStr) == Success(None);
    assert Step(mf, "dirname", c, pyStr) == Success(None);
    OneStepSets(mf, context, c, pyStr);
  }

  /** A call whose only formatter is the file name's, and that sets it. */
  lemma OneStepSets(mf: MakeFilename, context: Dict, c: Dict, pyStr: Val -> string)
    requires Step(mf, "filename", context, pyStr) == Success(Some(c))
    requires Step(mf, "fileext", c, pyStr) == Success(None)
    requires Step(mf, "dirname", c, pyStr) == Success(None)
    ensures Steps(mf, OutputKeys, context, pyStr) == Success((c, true))
  {
    assert OutputKeys[1..][1..][1..] == [];
  }
}
