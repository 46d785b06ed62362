// Writing text data to the file system (lena/output/write.py). The file
// system is a map from paths to contents; paths follow POSIX rules.

module OutputWrite {
  import opened Wrappers
  import opened Values
  import opened Strings
  import opened ContextFunctions
  import opened FlowFunctions

  /** The contents of the files, by path. */
  type Files = map<string, string>

  /** `Write(output_directory, output_filename, verbose,
      existing_unchanged, overwrite)`; *verbose* only prints. */
  datatype Write = Write(outputDirectory: string, outputFilename: string, existingUnchanged: bool, overwrite: bool)

  /** `Write.__init__`: both names must be strings (LenaTypeError), and
      *existing_unchanged* and *overwrite* exclude each other
      (LenaValueError). */
  function NewWrite(outputDirectory: Val, outputFilename: Val, existingUnchanged: Val, overwrite: Val): (r: Result<Write>)
    ensures !outputDirectory.VStr? || !outputFilename.VStr? ==> r == Failure(LenaTypeError)
    ensures outputDirectory.VStr? && outputFilename.VStr? ==>
              (r.Failure? <==> Truthy(existingUnchanged) && Truthy(overwrite))
    ensures r.Failure? ==> r.error == LenaTypeError || r.error == LenaValueError
    ensures r.Success? ==> !(r.value.existingUnchanged && r.value.overwrite)
    ensures r.Success? ==> r.value.outputDirectory == outputDirectory.s && r.value.outputFilename == outputFilename.s
  {
    if !outputDirectory.VStr? || !outputFilename.VStr? then Failure(LenaTypeError)
    else if Truthy(existingUnchanged) && Truthy(overwrite) then Failure(LenaValueError)
    else Success(Write(outputDirectory.s, outputFilename.s, Truthy(existingUnchanged), Truthy(overwrite)))
  }

  // ------------------------------------------------------------------
  // Paths

  /** `os.path.isabs` on POSIX. */
  predicate IsAbs(p: string)
  {
    |p| > 0 && p[0] == '/'
  }

  /** `normalize_path` as written: one leading separator of an absolute
      path is removed, and the assertion that the rest is relative fails
      when the path began with two separators. */
  function NormalizePathAsWritten(p: Val): (r: Result<string>)
    ensures r.Success? ==> p.VStr? && !IsAbs(r.value)
    ensures p.VStr? && |p.s| >= 2 && p.s[0] == '/' && p.s[1] == '/' ==> r == Failure(PyAssertionError)
  {
    if !p.VStr? then Failure(PyTypeError)
    else if !IsAbs(p.s) then Success(p.s)
    else if IsAbs(p.s[1..]) then Failure(PyAssertionError)
    else Success(p.s[1..])
  }

  /** The path without its leading separators. */
  function StripSeps(s: string): (r: string)
    ensures !IsAbs(r) && |r| <= |s| && r == s[|s| - |r|..]
    ensures forall i :: 0 <= i < |s| - |r| ==> s[i] == '/'
    decreases |s|
  {
    if IsAbs(s) then StripSeps(s[1..]) else s
  }

  /** `normalize_path` as intended: an absolute path loses all its leading
      separators, so that it is relative; a relative path is kept.
      This is the corrected behaviour; the program as written is `NormalizePathAsWritten`. */
  function NormalizePath(p: Val): (r: Result<string>)
    ensures r.Success? <==> p.VStr?
    ensures r.Success? ==> !IsAbs(r.value) && r.value == StripSeps(p.s)
    ensures p.VStr? && !IsAbs(p.s) ==> r == Success(p.s)
  {
    if !p.VStr? then Failure(PyTypeError) else Success(StripSeps(p.s))
  }

  /** Both normalizations agree except on paths with two leading
      separators. */
  lemma NormalizeAgrees(p: Val)
    requires !(p.VStr? && |p.s| >= 2 && p.s[0] == '/' && p.s[1] == '/')
    ensures NormalizePathAsWritten(p) == NormalizePath(p)
  {
    if p.VStr? && IsAbs(p.s) {
      assert StripSeps(p.s) == StripSeps(p.s[1..]);
    }
  }

  /** The path "//tmp" fails the assertion as written, and is "tmp" once
      all leading separators are removed. */
  lemma DoubleSlashDirname()
    ensures NormalizePathAsWritten(VStr("//tmp")) == Failure(PyAssertionError)
    ensures NormalizePath(VStr("//tmp")) == Success("tmp")
  {
    var s := "//tmp";
    assert s[1..] == "/tmp" && s[1..][1..] == "tmp";
    assert StripSeps("tmp") == "tmp";
    assert StripSeps("/tmp") == "tmp";
  }

  /** `os.path.join(a, b)` on POSIX: an absolute *b* replaces *a*, and a
      separator is put between them unless *a* is empty or ends with one. */
  function PathJoin(a: string, b: string): (r: string)
    ensures !IsAbs(b) ==> a <= r
    ensures !IsAbs(a) && !IsAbs(b) ==> !IsAbs(r)
    ensures IsAbs(b) ==> r == b
  {
    if IsAbs(b) then b
    else if a == "" || a[|a| - 1] == '/' then a + b
    else a + "/" + b
  }

  // ------------------------------------------------------------------
  // File names

  /** The parts `_make_filename` returns: the normalized directory, the
      file name, the extension as found and the complete path. */
  datatype FileName = FileName(dirname: string, filename: string, fileext: Val, filepath: string)

  /** The extension: *filetype* only when *fileext* is absent, "txt" when
      both are. */
  function FileExt(o: Dict): (ext: Val)
    ensures "fileext" in o ==> ext == o["fileext"]
    ensures "fileext" !in o && "filetype" in o ==> ext == o["filetype"]
    ensures "fileext" !in o && "filetype" !in o ==> ext == VStr("txt")
  {
    if "filetype" in o && "fileext" !in o then o["filetype"]
    else if "fileext" in o then o["fileext"]
    else VStr("txt")
  }

  /** The file name and extension joined with a dot, or the name alone
      for an empty extension; both must be strings to be joined. */
  function NameWithExt(name: Val, ext: Val): (r: Result<Val>)
    ensures r.Success? ==> r.value.VStr? && name.VStr?
    ensures Truthy(ext) && name.VStr? && ext.VStr? ==> r == Success(VStr(name.s + "." + ext.s))
    ensures !Truthy(ext) && name.VStr? ==> r == Success(name)
  {
    if Truthy(ext) then
      if name.VStr? && ext.VStr? then Success(VStr(name.s + "." + ext.s)) else Failure(PyTypeError)
    else if name.VStr? then Success(name)
    else Failure(PyTypeError)
  }

  /** `_make_filename(outputc)`: the directory from *dirname* (default
      ""), the extension, the file name from *filename* (the default one
      when absent; an empty one is a LenaRuntimeError), and the path
      `output_directory/dirname/filename.fileext`. */
  function FileNameOf(w: Write, o: Dict): (r: Result<FileName>)
    ensures "filename" in o && !Truthy(o["filename"]) ==> r == Failure(LenaRuntimeError)
    ensures r.Failure? ==> r.error == LenaRuntimeError || r.error == PyTypeError
    ensures r.Success? ==> r.value.fileext == FileExt(o)
    ensures r.Success? ==> VStr(r.value.filename) == if "filename" in o then o["filename"] else VStr(w.outputFilename)
  {
    var dirV := if "dirname" in o then o["dirname"] else VStr("");
    var ext := FileExt(o);
    var name :- if "filename" in o then
                  (if Truthy(o["filename"]) then Success(o["filename"]) else Failure(LenaRuntimeError))
                else Success(VStr(w.outputFilename));
    var pathV :- NameWithExt(name, ext);
    var dir :- NormalizePath(dirV);
    var path := NormalizePath(pathV).value;
    Success(FileName(dir, name.s, ext, PathJoin(PathJoin(w.outputDirectory, dir), path)))
  }

  /** The complete path lies inside the output directory, with the
      relative directory and file name after it; an empty extension adds
      no dot. */
  lemma FileNamePath(w: Write, o: Dict)
    requires FileNameOf(w, o).Success?
    ensures w.outputDirectory <= FileNameOf(w, o).value.filepath
    ensures !IsAbs(FileNameOf(w, o).value.dirname)
    ensures !IsAbs(w.outputDirectory) ==> !IsAbs(FileNameOf(w, o).value.filepath)
    ensures var f := FileNameOf(w, o).value;
            f.filepath == PathJoin(PathJoin(w.outputDirectory, f.dirname),
                                      StripSeps(if Truthy(f.fileext) then f.filename + "." + f.fileext.s else f.filename))
  {
    var f := FileNameOf(w, o).value;
    var name := if "filename" in o then o["filename"] else VStr(w.outputFilename);
    var ext := FileExt(o);
    var pathV := NameWithExt(name, ext);
    var dir := NormalizePath(if "dirname" in o then o["dirname"] else VStr(""));
    assert pathV.Success? && dir.Success?;
    var path := StripSeps(pathV.value.s);
    assert f == FileName(dir.value, name.s, ext, PathJoin(PathJoin(w.outputDirectory, dir.value), path));
    assert path == NormalizePath(pathV.value).value;
    assert !IsAbs(path) && !IsAbs(dir.value);
    var a := PathJoin(w.outputDirectory, f.dirname);
    assert w.outputDirectory <= a <= f.filepath;
    assert pathV.value.s == if Truthy(f.fileext) then f.filename + "." + f.fileext.s else f.filename;
  }

  /** Write("", name) makes "name.txt" from an empty `output` context,
      for a non-empty name that is not absolute. */
  lemma FileNameDefaultExample(name: string)
    requires name != "" && !IsAbs(name)
    ensures FileNameOf(Write("", name, false, false), map[]) == Success(FileName("", name, VStr("txt"), name + ".txt"))
  {
    var o: Dict := map[];
    var path := name + "." + "txt";
    assert FileExt(o) == VStr("txt");
    assert NameWithExt(VStr(name), VStr("txt")) == Success(VStr(path));
    assert path[0] == name[0];
    assert NormalizePath(VStr("")) == Success("");
    assert NormalizePath(VStr(path)) == Success(path);
    assert PathJoin(PathJoin("", ""), path) == path;
    assert path == name + ".txt";
  }

  // ------------------------------------------------------------------
  // Writing values

  /** A value with a `write` method. */
  predicate HasWriteMethod(data: Val)
  {
    data.VObj? && "write" in data.attrs
  }

  /** `is_writable(data, context)`: `context.output.write` (default True)
      must be true, and the data must have a `write` method or be a
      string. The dotted key is looked up as its list of parts, which
      OutputWriteKey shows to be the same. */
  function IsWritable(data: Val, context: Dict): (r: Result<bool>)
    ensures r == Success(Truthy(WriteFlag(context)) && (HasWriteMethod(data) || data.VStr?))
  {
    assert [VStr("output"), VStr("write")][1..] == [VStr("write")];
    match GetRecursively(VDict(context), VList([VStr("output"), VStr("write")]), Some(VBool(true)))
    case Failure(e) => Failure(e)
    case Success(flag) => Success(Truthy(flag) && (HasWriteMethod(data) || data.VStr?))
  }

  /** A key "a.b" is the path of its two parts. */
  lemma DottedKeyPath(d: Val, a: string, b: string, default: Option<Val>)
    requires a != "" && b != "" && '.' !in a && '.' !in b
    ensures GetRecursively(d, VStr(a + "." + b), default) == GetRecursively(d, VList([VStr(a), VStr(b)]), default)
  {
    assert a + "." + b == Join([a, b], '.');
    SplitJoin([a, b], '.');
    assert [a, b][1..] == [b] && [b][1..] == [];
    assert NonEmptyParts([b]) == [VStr(b)] + NonEmptyParts([]);
    assert NonEmptyParts([a, b]) == [VStr(a)] + NonEmptyParts([b]);
  }

  /** `get_recursively(context, "output.write", True)` looks up the
      path output, write. */
  lemma OutputWriteKey(context: Dict)
    ensures GetRecursively(VDict(context), VStr("output.write"), Some(VBool(true)))
            == GetRecursively(VDict(context), VList([VStr("output"), VStr("write")]), Some(VBool(true)))
  {
    assert "output" + "." + "write" == "output.write";
    DottedKeyPath(VDict(context), "output", "write", Some(VBool(true)));
  }

  /** `context.output.write` when `output` is a dictionary that has it,
      True otherwise. */
  function WriteFlag(context: Dict): Val
  {
    if "output" in context && context["output"].VDict? && "write" in context["output"].m
    then context["output"].m["write"] else VBool(true)
  }

  /** The `output` context after a value is written: the file name, the
      extension and the path are set, and *changed* as decided. */
  function Written(o: Dict, f: FileName): (o1: Dict)
    ensures o1.Keys == o.Keys + {"filename", "fileext", "filepath"}
    ensures o1["filename"] == VStr(f.filename) && o1["fileext"] == f.fileext && o1["filepath"] == VStr(f.filepath)
    ensures forall k :: k in o && k !in {"filename", "fileext", "filepath"} ==> o1[k] == o[k]
  {
    o["filename" := VStr(f.filename)]["fileext" := f.fileext]["filepath" := VStr(f.filepath)]
  }

  /** One step of `Write.run`: a value that is not writable passes
      unchanged; otherwise it is written. */
  function WriteOne(w: Write, val: Val, files: Files): (r: Result<(Val, Files)>)
  {
    var (data, context) := GetDataContext(val);
    var writable :- IsWritable(data, context);
    if !writable then Success((val, files)) else WriteValue(w, data, context, files)
  }

  /** Writing a writable value: the file name is made from its `output`
      context (created when absent, and which must be a dictionary), the
      data is written, and the file path is yielded with the updated
      context. */
  function WriteValue(w: Write, data: Val, context: Dict, files: Files): (r: Result<(Val, Files)>)
    requires HasWriteMethod(data) || data.VStr?
    ensures "output" in context && !context["output"].VDict? ==> r == Failure(PyAttributeError)
    // the value yielded is the file path
    ensures r.Success? ==> FileNameOf(w, OutputOf(context)).Success? &&
                           GetData(r.value.0) == VStr(FileNameOf(w, OutputOf(context)).value.filepath)
  {
    var outV := if "output" in context then context["output"] else VDict(map[]);
    if !outV.VDict? then Failure(PyAttributeError)
    else
      var f :- FileNameOf(w, outV.m);
      var o1 := Written(outV.m, f);
      var (changed, files') := Outcome(w, data, f.filepath, files, PriorChanged(o1));
      Success((Pair(VStr(f.filepath), context["output" := VDict(SetChanged(o1, changed))]), files'))
  }

  /** The prior *changed* flag, False when absent. */
  function PriorChanged(o: Dict): Val
  {
    if "changed" in o then o["changed"] else VBool(false)
  }

  /** What writing does to the files and to `output.changed` (None leaves
      the flag as it was): an object writes itself; an existing file is
      kept, overwritten, or rewritten when its contents differ; a new file
      is created. */
  function Outcome(w: Write, data: Val, fp: string, files: Files, prior: Val): (Option<Val>, Files)
    requires HasWriteMethod(data) || data.VStr?
  {
    if HasWriteMethod(data) then (Some(VBool(true)), files)
    else if fp in files then
      if w.existingUnchanged then (Some(prior), files)
      else if w.overwrite then (Some(VBool(true)), files[fp := data.s])
      else if files[fp] != data.s then (Some(VBool(true)), files[fp := data.s])
      else (Some(prior), files)
    else (None, files[fp := data.s])
  }

  function SetChanged(o: Dict, changed: Option<Val>): Dict
  {
    if changed.Some? then o["changed" := changed.value] else o
  }

  /** The parts of a successful write. */
  lemma WriteValueParts(w: Write, data: Val, context: Dict, files: Files)
    requires HasWriteMethod(data) || data.VStr?
    requires WriteValue(w, data, context, files).Success?
    ensures "output" in context ==> context["output"].VDict?
    ensures FileNameOf(w, OutputOf(context)).Success?
    ensures var f := FileNameOf(w, OutputOf(context)).value;
            var o1 := Written(OutputOf(context), f);
            var (changed, files') := Outcome(w, data, f.filepath, files, PriorChanged(OutputOf(context)));
            WriteValue(w, data, context, files).value
              == (Pair(VStr(f.filepath), context["output" := VDict(SetChanged(o1, changed))]), files')
  {
    var f := FileNameOf(w, OutputOf(context)).value;
    assert PriorChanged(Written(OutputOf(context), f)) == PriorChanged(OutputOf(context));
  }

  /** The `output` context of a value, if it is a dictionary. */
  function OutputOf(context: Dict): Dict
  {
    if "output" in context && context["output"].VDict? then context["output"].m else map[]
  }

  /** Values that are not writable pass unchanged and write nothing. */
  lemma NotWritablePasses(w: Write, val: Val, files: Files)
    requires !Truthy(WriteFlag(GetContext(val))) || !(HasWriteMethod(GetData(val)) || GetData(val).VStr?)
    ensures WriteOne(w, val, files) == Success((val, files))
  {
  }

  /** A written value yields its file path with the context in which the
      `output` dictionary has the file name, the extension and the path
      set; the rest of the context is kept. */
  lemma WrittenValue(w: Write, data: Val, context: Dict, files: Files)
    requires HasWriteMethod(data) || data.VStr?
    requires WriteValue(w, data, context, files).Success?
    ensures var f := FileNameOf(w, OutputOf(context));
            var out := WriteValue(w, data, context, files).value.0;
            && f.Success?
            && GetData(out) == VStr(f.value.filepath)
            && GetContext(out).Keys == context.Keys + {"output"}
            && (forall k :: k in context && k != "output" ==> GetContext(out)[k] == context[k])
            && GetContext(out)["output"].VDict?
            && var o := GetContext(out)["output"].m;
               && "filename" in o && o["filename"] == VStr(f.value.filename)
               && "fileext" in o && o["fileext"] == f.value.fileext
               && "filepath" in o && o["filepath"] == VStr(f.value.filepath)
               && (forall k :: k in OutputOf(context) && k !in {"filename", "fileext", "filepath", "changed"} ==> k in o && o[k] == OutputOf(context)[k])
  {
    WriteValueParts(w, data, context, files);
    var f := FileNameOf(w, OutputOf(context)).value;
    var (changed, files') := Outcome(w, data, f.filepath, files, PriorChanged(OutputOf(context)));
    var o2 := SetChanged(Written(OutputOf(context), f), changed);
    WrittenOutput(OutputOf(context), f, changed);
    OutputPair(VStr(f.filepath), context, o2);
  }

  /** A pair whose context has a new `output` dictionary keeps the other
      entries. */
  lemma OutputPair(data: Val, context: Dict, o: Dict)
    ensures var out := Pair(data, context["output" := VDict(o)]);
            && GetData(out) == data
            && GetContext(out).Keys == context.Keys + {"output"}
            && (forall k :: k in context && k != "output" ==> GetContext(out)[k] == context[k])
            && GetContext(out)["output"] == VDict(o)
  {
    PairRoundTrip(data, context["output" := VDict(o)], VNone);
  }

  /** The `output` dictionary after a write: the file's name, extension
      and path set, the other entries but `changed` kept. */
  lemma WrittenOutput(o: Dict, f: FileName, changed: Option<Val>)
    ensures var o2 := SetChanged(Written(o, f), changed);
            && "filename" in o2 && o2["filename"] == VStr(f.filename)
            && "fileext" in o2 && o2["fileext"] == f.fileext
            && "filepath" in o2 && o2["filepath"] == VStr(f.filepath)
            && (forall k :: k in o && k !in {"filename", "fileext", "filepath", "changed"} ==> k in o2 && o2[k] == o[k])
  {
  }

  /** `output.changed` is True after a `write` method, an overwrite or
      differing contents; it keeps its prior value (default False) when
      the existing file is kept or holds the same contents; writing a new
      file leaves it as it was. */
  lemma ChangedFlag(w: Write, data: Val, context: Dict, files: Files)
    requires HasWriteMethod(data) || data.VStr?
    requires WriteValue(w, data, context, files).Success?
    ensures var o := OutputOf(context);
            var fp := FileNameOf(w, o).value.filepath;
            var out := GetContext(WriteValue(w, data, context, files).value.0)["output"].m;
            && (HasWriteMethod(data) ==> out["changed"] == VBool(true))
            && (!HasWriteMethod(data) && fp in files && w.existingUnchanged ==> out["changed"] == PriorChanged(o))
            && (!HasWriteMethod(data) && fp in files && !w.existingUnchanged && w.overwrite ==> out["changed"] == VBool(true))
            && (!HasWriteMethod(data) && fp in files && !w.existingUnchanged && files[fp] != data.s ==> out["changed"] == VBool(true))
            && (!HasWriteMethod(data) && fp in files && !w.overwrite && files[fp] == data.s ==> out["changed"] == PriorChanged(o))
            && (!HasWriteMethod(data) && fp !in files ==> ("changed" in out <==> "changed" in o) && ("changed" in o ==> out["changed"] == o["changed"]))
  {
    WriteValueParts(w, data, context, files);
  }

  /** After a string is written, its file holds it, unless an existing
      file is kept; no other file changes. */
  lemma FileHoldsData(w: Write, data: Val, context: Dict, files: Files)
    requires data.VStr? && !HasWriteMethod(data)
    requires WriteValue(w, data, context, files).Success?
    ensures var fp := FileNameOf(w, OutputOf(context)).value.filepath;
            var files' := WriteValue(w, data, context, files).value.1;
            && fp in files'
            && (!(w.existingUnchanged && fp in files) ==> files'[fp] == data.s)
            && (w.existingUnchanged && fp in files ==> files' == files)
            && (forall p :: p in files && p != fp ==> p in files' && files'[p] == files[p])
            && files'.Keys == files.Keys + {fp}
  {
    WriteValueParts(w, data, context, files);
  }

  /** Writing the same value again changes no file. */
  lemma WriteAgain(w: Write, val: Val, files: Files)
    requires WriteOne(w, val, files).Success?
    ensures WriteOne(w, val, WriteOne(w, val, files).value.1).Success?
    ensures WriteOne(w, val, WriteOne(w, val, files).value.1).value.1 == WriteOne(w, val, files).value.1
  {
    var (data, context) := GetDataContext(val);
    var files' := WriteOne(w, val, files).value.1;
    if Truthy(WriteFlag(context)) && data.VStr? {
      FileHoldsData(w, data, context, files);
      WriteValueAgain(w, data, context, files, files');
    }
  }

  lemma WriteValueAgain(w: Write, data: Val, context: Dict, files: Files, files': Files)
    requires data.VStr? && !HasWriteMethod(data)
    requires WriteValue(w, data, context, files).Success?
    requires files' == WriteValue(w, data, context, files).value.1
    requires var fp := FileNameOf(w, OutputOf(context)).value.filepath;
             fp in files' && (!(w.existingUnchanged && fp in files) ==> files'[fp] == data.s)
    ensures WriteValue(w, data, context, files').Success?
    ensures WriteValue(w, data, context, files').value.1 == files'
  {
    WriteValueParts(w, data, context, files);
    WriteValueFiles(w, data, context, files');
    var fp := FileNameOf(w, OutputOf(context)).value.filepath;
    if !w.existingUnchanged {
      assert files'[fp := data.s] == files';
    }
  }

  /** Whether writing succeeds does not depend on the files, and the new
      files are those of `Outcome`. */
  lemma WriteValueFiles(w: Write, data: Val, context: Dict, files: Files)
    requires HasWriteMethod(data) || data.VStr?
    requires "output" in context ==> context["output"].VDict?
    requires FileNameOf(w, OutputOf(context)).Success?
    ensures WriteValue(w, data, context, files).Success?
    ensures var fp := FileNameOf(w, OutputOf(context)).value.filepath;
            WriteValue(w, data, context, files).value.1 == Outcome(w, data, fp, files, PriorChanged(OutputOf(context))).1
  {
    var f := FileNameOf(w, OutputOf(context)).value;
    assert PriorChanged(Written(OutputOf(context), f)) == PriorChanged(OutputOf(context));
  }

  // ------------------------------------------------------------------
  // The flow

  /** Every value of the flow in turn through `step`, which threads the
      files; the first error stops the run, and the files written before
      it stay written. */
  function Fold(step: (Val, Files) -> Result<(Val, Files)>, flow: seq<Val>, files: Files): (r: (Result<seq<Val>>, Files))
    ensures r.0.Success? ==> |r.0.value| == |flow|
    decreases |flow|
  {
    if |flow| == 0 then (Success([]), files)
    else
      var (prev, fs) := Fold(step, flow[..|flow| - 1], files);
      if prev.Failure? then (prev, fs)
      else
        match step(flow[|flow| - 1], fs)
        case Failure(e) => (Failure(e), fs)
        case Success((v, fs')) => (Success(prev.value + [v]), fs')
  }

  /** One step of the run as a function value. */
  function Step(w: Write): (Val, Files) -> Result<(Val, Files)>
  {
    (v, fs) => WriteOne(w, v, fs)
  }

  /** `Write.run(flow)`. */
  function RunAll(w: Write, flow: seq<Val>, files: Files): (r: (Result<seq<Val>>, Files))
    ensures r.0.Success? ==> |r.0.value| == |flow|
  {
    Fold(Step(w), flow, files)
  }

  /** A fold yields one value per input, and a value that every step
      passes unchanged is yielded unchanged. */
  lemma {:induction false} FoldPasses(step: (Val, Files) -> Result<(Val, Files)>, passes: Val -> bool, flow: seq<Val>, files: Files)
    requires forall v, fs :: passes(v) && step(v, fs).Success? ==> step(v, fs).value.0 == v
    requires Fold(step, flow, files).0.Success?
    ensures var outs := Fold(step, flow, files).0.value;
            && |outs| == |flow|
            && forall i :: 0 <= i < |flow| && passes(flow[i]) ==> outs[i] == flow[i]
    decreases |flow|
  {
    if |flow| > 0 {
      var n := |flow| - 1;
      var init := flow[..n];
      FoldPasses(step, passes, init, files);
      var outs := Fold(step, flow, files).0.value;
      assert outs[..n] == Fold(step, init, files).0.value;
      forall i | 0 <= i < n
        ensures flow[i] == init[i]
      {
      }
    }
  }

  /** A run yields one value per input, and every value that is not
      writable is yielded unchanged. */
  lemma RunPasses(w: Write, flow: seq<Val>, files: Files)
    requires RunAll(w, flow, files).0.Success?
    ensures var outs := RunAll(w, flow, files).0.value;
            && |outs| == |flow|
            && forall i :: 0 <= i < |flow| && !Truthy(WriteFlag(GetContext(flow[i]))) ==> outs[i] == flow[i]
  {
    var passes := (v: Val) => !Truthy(WriteFlag(GetContext(v)));
    forall v, fs | passes(v) && Step(w)(v, fs).Success?
      ensures Step(w)(v, fs).value.0 == v
    {
      NotWritablePasses(w, v, fs);
    }
    FoldPasses(Step(w), passes, flow, files);
  }

  /** `Write.run`: the loop over the flow. */
  method Run(w: Write, flow: seq<Val>, files: Files) returns (r: Result<seq<Val>>, files': Files)
    ensures (r, files') == RunAll(w, flow, files)
  {
    var outs: seq<Val> := [];
    files' := files;
    var i := 0;
    while i < |flow|
      invariant 0 <= i <= |flow|
      invariant Fold(Step(w), flow[..i], files) == (Success(outs), files')
    {
      assert flow[..i + 1][..i] == flow[..i];
      var step := WriteOne(w, flow[i], files');
      if step.Failure? {
        FoldPrefix(Step(w), flow, files, i + 1);
        return Failure(step.error), files';
      }
      var (v, fs) := step.value;
      outs := outs + [v];
      files' := fs;
      i := i + 1;
    }
    assert flow[..i] == flow;
    r := Success(outs);
  }

  /** A failure among the first values is the failure of the fold. */
  lemma {:induction false} FoldPrefix(step: (Val, Files) -> Result<(Val, Files)>, flow: seq<Val>, files: Files, k: nat)
    requires k <= |flow| && Fold(step, flow[..k], files).0.Failure?
    ensures Fold(step, flow, files) == Fold(step, flow[..k], files)
    decreases |flow| - k
  {
    if k < |flow| {
      assert flow[..k + 1][..k] == flow[..k];
      FoldPrefix(step, flow, files, k + 1);
    } else {
      assert flow[..k] == flow;
    }
  }
}
