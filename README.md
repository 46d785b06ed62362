# Lena's flow engine in Dafny

Lena is a Python framework for processing data as a *flow*. Values pass through
a *sequence* of elements. An element may be a plain callable, an object with
`run(flow)`, a *fill/compute* accumulator, a *fill/request* accumulator or a
*source* that produces the flow itself. Each value may carry a *context*: a
nested dictionary that elements read and extend as the value moves along.

This project models that engine and the elements built on it, and proves
properties of the model:

- **Values and contexts** (`values.dfy`, `context_functions.dfy`,
  `context_sets.dfy`, `context_format.dfy`, `context_elements.dfy`).
  - A Python value is the datatype `Val` and a context is `map<string, Val>`.
  - Python's `==`, under which `1 == 1.0 == True`, is `Values.PyEq`.
  - Modelled operations: dotted-key lookup and containment, recursive update,
    `update_nested`, `difference`, `intersection`, `format_context`, and the
    `UpdateContext`/`DeleteContext` elements.
- **The core** (`core_elements.dfy`, `core_run.dfy`, `core_build.dfy`,
  `core_loops.dfy`, `core_laws.dfy`, `core_meta.dfy`, `meta_merge.dfy`).
  - An element is a closed datatype. The adapters decide which protocol
    applies (`Run`, `Call`, `FillCompute`, `FillRequest`, `FillInto`, `Source`).
  - `Sequence`, `Source`, `FillSeq`, `FillComputeSeq` and `Split` are checked
    when they are built and then run as functions on finite flows.
  - The loops of `FillRequest.run` and `Split.run` are methods proved equal to
    those functions.
  - Laws relate them: running is a fold, a split feeds every branch, and
    batching loses nothing.
- **Flow elements** (`flow_elements.dfy`, `flow_functions.dfy`,
  `iterators.dfy`, `selectors.dfy`, `filter.dfy`, `drop_context.dfy`,
  `group_by.dfy`, `group_scale.dfy`, `group_plots.dfy`,
  `group_plots_class.dfy`, `seq_map.dfy`, `zip.dfy`).
  - Covers `Count`, `ISlice`, chunking, selectors, `GroupBy`, `GroupScale`,
    `GroupPlots`, `MapGroup` and `Zip`.
  - Stateful elements are Dafny classes whose methods are proved against
    specification functions.
- **Variables** (`variables.dfy`, `compose.dfy`): `Variable`, `Combine` and
  `Compose`, with the context each writes.
- **Structures and maths** (`hist_functions.dfy`, `histogram.dfy`, `graph.dfy`,
  `deprecated_graph.dfy`, `split_into_bins.dfy`, `math_elements.dfy`,
  `math_meshes.dfy`, `math_utils.dfy`, `include_exclude.dfy`).
  - Covers bin search on edges and histogram fill and compute.
  - Covers graphs and the deprecated `Graph` class, `Sum`, `Mean` and meshes.
- **Output** (`output_make_filename.dfy`, `output_write.dfy`, `dict_table.dfy`):
  - `MakeFilename` and `Write`, with the file system as a map from paths to
    contents;
  - `DictTable` tables.

Exceptions are the error values of `Wrappers.Result`. Each value of
`Values.Error` names one Lena exception class or the Python built-in exception
the code raises.

Where the code and the library's own documentation disagree, the model follows
the code:

- **Protocol precedence.** An element with `run` is a runner; otherwise a
  callable is a transform; only then are fill/compute and fill/request
  considered (lena/core/adapters.py). The documentation's order puts
  fill/request before fill/compute and gives `run` no priority.
- **`FillRequest.run` on an empty flow.** It calls `request` once
  (lena/core/adapters.py:304-319). The documentation says an empty flow yields
  nothing.
- **`Histogram.scale()`** returns the integral it computes but never stores
  it in `_scale`, so every call computes it again
  (lena/structures/histogram.py:163-167). Its docstring says a computed scale
  is kept.
- **`Write.run` and new files.** A file written for the first time does not
  set `output.changed` (lena/output/write.py:254-263). Only an existing file
  whose content differs does.
- **`merge_heads`** receives a single list and returns it unchanged.
  - So a differing element with a non-empty tail becomes a tuple, which
    `Split` then rejects.
  - `tests/meta/test_merge.py` compares the result with a fresh `Split`. That
    comparison cannot hold either, because `Split` has no `__eq__`.
- **Tests that the code cannot pass.**
  - The `Mean` test expects `pass_on_empty` and `LenaZeroDivisionError`. The
    code raises `LenaRuntimeError` on an empty mean.
  - The `MakeFilename` prefix/suffix test passes keywords that the constructor
    does not accept.

## Model

| member | source | states |
|---|---|---|
| Strings.Split | lena/context/functions.py:456 | `s.split(".")` on a one-character separator never returns an empty list and no part contains the separator |
| Strings.JoinSplit | lena/context/functions.py:435-456 | joining the parts of a split with the separator gives back the string (nothing is lost by `str_to_list`) |
| Strings.SplitJoin | lena/context/functions.py:435-456 | splitting a join of separator-free parts gives back exactly those parts, empty parts included |
| Strings.SplitNoSep | lena/context/functions.py:39-42 | a key without a dot splits into itself alone |
| Strings.CountChar | lena/context/functions.py:143 | `s.count(c)` is at most the length, and zero exactly when the character does not occur |
| FlowFunctions.Pair | lena/flow/functions.py:48-56 | a (data, dict) 2-tuple always counts as a value with context |
| FlowFunctions.GetData | lena/flow/functions.py:21-29 | a value without context is its own data |
| FlowFunctions.GetContext | lena/flow/functions.py:10-18 | a value without context has the empty context |
| FlowFunctions.GetDataContext | lena/flow/functions.py:32-45 | `get_data_context` agrees with `get_data` and `get_context` on every value |
| FlowFunctions.PairRoundTrip | lena/flow/functions.py:32-56 | splitting a pair gives back its data and context, and a value with context is the pair of its parts |
| ContextFunctions.Contains | lena/context/functions.py:14-60 | a string without a dot is tested as a key of the top-level dictionary; longer paths walk the keys before the last one and compare the last part with a dict key or the string form of a leaf |
| ContextFunctions.ContainsAfterUpdate | lena/context/functions.py:14-60 | after merging the dictionary that `str_to_dict(s)` builds from a dotted string into a context, `contains(context, s)` is True |
| ContextFunctions.DictKeyChain | lena/context/functions.py:251-266 | a dict key argument is read as a chain of one-key levels; a level with several keys is a LenaValueError |
| ContextFunctions.NonEmptyParts | lena/context/functions.py:249 | a dotted key string gives its non-empty parts only, as string keys |
| ContextFunctions.KeyList | lena/context/functions.py:247-276 | the keys argument becomes a key list from a string, a one-key-per-level dict or a list of strings; everything else fails with LenaTypeError or LenaValueError |
| ContextFunctions.GetRecursively | lena/context/functions.py:206-299 | a non-dict *d* is a LenaTypeError, empty keys return *d*, a given default is never replaced by LenaKeyError, and a keys argument that is no string, dict or list is a LenaTypeError |
| ContextFunctions.GetPlainKey | lena/context/functions.py:247-298 | a key without a dot returns `d[key]` when present and raises LenaKeyError otherwise |
| ContextFunctions.LookupResult | lena/context/functions.py:279-298 | with a default the lookup succeeds whenever every key can be hashed; it fails only with TypeError, for a key that cannot be hashed, or with LenaKeyError when no default is given |
| ContextFunctions.ListLeafKey | lena/context/functions.py:251-292 | a one-key dict of keys whose leaf is a non-empty list puts that list in the key list, and looking it up in a dict is a TypeError (a list cannot be a key) |
| ContextFunctions.NestList | lena/context/functions.py:419-430 | the nested dictionary built from a key list has the first key as its only top-level key |
| ContextFunctions.StrToDict | lena/context/functions.py:382-432 | "" gives {} without a value and LenaValueError with one; every result is a dict; a non-empty string with a value always succeeds; without a value only a dotless string fails, with LenaValueError |
| ContextFunctions.StrToList | lena/context/functions.py:435-456 | the list is empty exactly for "", and otherwise its parts joined with dots give back the string |
| ContextFunctions.Merge | lena/context/functions.py:606-614 | the merged keys are the union; keys only in *d* keep their values; non-dict values of *other* overwrite; dict values of *other* give dicts |
| ContextFunctions.UpdateRecursively | lena/context/functions.py:562-614 | an empty dotted string with a value and an explicit value with a non-string *other* are LenaValueError; a non-dict *d* updated by a dict is a LenaTypeError; a success is a dict |
| ContextFunctions.SetTwoParts | lena/context/functions.py:562-614 | `update_recursively(d, "a.b", v)` merges `{a: {b: v}}`, and the new `d[a]` is the old one (a non-dict replaced by {}) updated with `b: v` |
| ContextFunctions.MergedFlag | lena/context/functions.py:606-614 | setting `a.b` to a non-dict value adds key *a*, sets `d[a][b]` and keeps every other top-level key |
| ContextFunctions.ContainedRefl | lena/context/functions.py:302-379 | every dictionary is contained in itself (the containment `intersection` results satisfy) |
| ContextFunctions.MergeContainsOther | lena/context/functions.py:606-614 | after a recursive update, *d* contains everything *other* holds |
| ContextFunctions.MergeIdempotent | lena/context/functions.py:606-614 | updating twice with the same *other* equals updating once |
| ContextFunctions.MergeIntoEmpty | lena/context/functions.py:606-614 | updating an empty dictionary gives *other* itself |
| ContextFunctions.WalkMergedPath | lena/context/functions.py:279-293 | after merging the nested dictionary for a key path and a non-dict leaf, walking and looking up that path both reach the leaf |
| ContextFunctions.GetAfterUpdate | lena/context/functions.py:206-299 | `update_recursively(d, s, v)` followed by `get_recursively(d, s)` gives back *v* for a dotted key with non-empty parts |
| ContextFunctions.InsertDeepest | lena/context/functions.py:541-556 | inserting at the deepest `other.key.key...` succeeds exactly when *other* is a dict whose key chain is finite and acyclic |
| ContextFunctions.UpdateNested | lena/context/functions.py:499-559 | an absent key is set to *other*; the keys grow by *key* only and other keys are unchanged; with the key present it succeeds exactly when the chain is acyclic |
| ContextFunctions.InsertDeepestKeeps | lena/context/functions.py:554-556 | the inserted value is found at the end of the key chain, one level deeper than the old chain |
| ContextFunctions.UpdateNestedKeepsOld | lena/context/functions.py:554-559 | the old `d[key]` is kept at the deepest level of the new `d[key]` |
| ContextFunctions.UpdateNestedExample | lena/context/functions.py:511-522 | the documented example: nesting a variable context under an existing one |
| ContextSets.DifferenceAsWritten | lena/context/functions.py:63-99 | for two dicts the difference is a dict over a subset of *d1*'s keys; a non-dict argument returns *d1*; a key whose values are unequal as Python compares them is kept, and dropped whenever its difference is falsy |
| ContextSets.Difference | lena/context/functions.py:63-99 | as above, with a differing key dropped only when both values are dicts and their difference is empty; dicts equal as Python compares them (1 == 1.0 == True) give {} |
| ContextSets.DifferenceRestores | lena/context/functions.py:63-99 | updating *d2* with `difference(d1, d2)` gives a dictionary that contains *d1*, at every level |
| ContextSets.DifferenceAsWrittenLosesFalsy | lena/context/functions.py:93-97 | with d1 = {"a": 0} and d2 = {"a": 1} the difference as written is {}, so *d1* is not restored from it, while the corrected difference keeps {"a": 0} |
| ContextSets.DifferenceAgrees | lena/context/functions.py:63-99 | when every key of *d2* is in *d1* with an equal value, the as-written and corrected differences agree |
| ContextSets.IntersectStep | lena/context/functions.py:359-374 | one pass keeps only keys present in both dictionaries, and only those whose values are equal as Python compares them or are dicts to recurse into |
| ContextSets.Intersection | lena/context/functions.py:302-379 | it fails, with LenaTypeError, exactly when some argument is not a dict or an unknown keyword is given; no dicts give {} |
| ContextSets.IntersectPairContained | lena/context/functions.py:353-379 | the intersection of two dictionaries is contained in both, at every level bound |
| ContextSets.IntersectAllContained | lena/context/functions.py:353-379 | folding the remaining dictionaries keeps the result contained in the running result and in each of them |
| ContextSets.IntersectAllLevel1 | lena/context/functions.py:353-379 | a key of a level-1 intersection is in the first dictionary with the same value and in every other one with an equal value |
| ContextSets.IntersectionContainedInAll | lena/context/functions.py:302-379 | a successful intersection is contained in every input dictionary |
| ContextSets.IntersectPairSelf | lena/context/functions.py:353-379 | a dictionary intersected with itself is itself (except {} at level 0) |
| ContextSets.IntersectionOfTwo | lena/context/functions.py:353-379 | for two dicts and at most a `level` keyword, the intersection is the pairwise one at that level, unbounded when no level is given |
| ContextSets.IntersectionExampleUnbounded | lena/context/functions.py:316-321 | the documented `intersection(d1, d2) == d2` |
| ContextSets.IntersectionExampleLevel0 | lena/context/functions.py:322-323 | the documented `intersection(d1, d2, level=0) == {}` |
| ContextSets.IntersectionExampleLevel1 | lena/context/functions.py:324-325 | the documented `intersection(d1, d2, level=1) == {}` |
| ContextSets.IntersectionExampleLevel2 | lena/context/functions.py:326-327 | the documented `intersection(d1, d2, level=2) == {2: {4: '4'}}` |
| ContextElements.MakeUpdateContext | lena/context/update_context.py:95-160 | a non-string subcontext is a LenaTypeError and an empty one a LenaValueError; more than one of default/skip/raise is a LenaValueError; the subcontext parts join back to the string; a non-string update is a simple update with none of the options; `value=True` with a string makes a context-value update with exactly one option active |
| ContextElements.SetPath | lena/context/update_context.py:213-223 | setting the subcontext adds its first key and keeps every other top-level key |
| ContextElements.SetPathLookup | lena/context/update_context.py:213-223 | after the update the subcontext path leads to the update value (overwrite), or to a value containing it (recursive merge of a dict) |
| ContextElements.ApplyUpdate | lena/context/update_context.py:162-224 | a changed result is a (data, context) pair with the data unchanged; a simple update sets the subcontext in the context of *value* |
| ContextElements.MissingContextValue | lena/context/update_context.py:178-195 | a context-value update whose key is missing returns the value unchanged when skipping, raises LenaKeyError when raising, and sets the default when one is given |
| ContextElements.MakeScatterExample | lena/context/update_context.py:95-126 | `UpdateContext("output.plot", {"scatter": True})` is a simple update of the path ["output", "plot"] |
| ContextElements.ApplyScatterExample | lena/context/update_context.py:209-224 | applied to a value without context it creates `{"output": {"plot": {"scatter": True}}}` |
| ContextElements.DeleteKeys | lena/context/elements.py:20-28 | a list or tuple key is kept as its items and a string becomes its `str_to_list` parts |
| ContextElements.DelItem | lena/context/elements.py:46-49 | `del subcont[key]` removes a present key from a dict, ignores a missing one, and is a TypeError on a non-container |
| ContextElements.Rewrap | lena/context/elements.py:39-50 | a value without context, or with its context unchanged, is returned as it is |
| ContextElements.DeleteAsWritten | lena/context/elements.py:40 | an empty key list fails with IndexError before anything is deleted |
| ContextElements.Delete | lena/context/elements.py:26-50 | the empty key removes the whole context; any other key behaves as written |
| ContextElements.DeleteAtMissing | lena/context/elements.py:41-49 | nothing is deleted exactly when the parent path is missing or the parent lacks the key |
| ContextElements.DeleteAtRemoves | lena/context/elements.py:46-48 | a present key is deleted and its parent dictionary stays in place, possibly empty |
| ContextElements.DeleteMissing | lena/context/elements.py:41-49 | a missing key or parent path leaves the value unchanged |
| ContextElements.DeleteExample | lena/context/elements.py:32-50 | deleting "a.b" leaves {"a": {}}, and deleting a missing "d" changes nothing |
| ContextElements.DeleteEmptyKeyFails | lena/context/elements.py:23-40 | the key "" becomes the empty key list, on which the code as written raises IndexError, while the corrected element empties the context |
| ContextFormat.CheckFormatStr | lena/context/functions.py:137-149 | the format string is accepted exactly when it is a string with as many '{' as '}' and, if it has any '{', some "{{"; a non-string is LenaTypeError and a rejected string LenaValueError |
| ContextFormat.BraceEnd | lena/context/functions.py:166-176 | the end of a run of '{': every character skipped is '{' and the one it stops at is not |
| ContextFormat.FieldEnd | lena/context/functions.py:178-188 | the end of a field name: no character skipped is one of '}', '!', ':' and the one it stops at is |
| ContextFormat.SkipBraces | lena/context/functions.py:166-177 | the inner loop over '{' stops at the end of the run |
| ContextFormat.ReadField | lena/context/functions.py:178-188 | the inner loop over a field name stops at its terminator and collects exactly the characters before it |
| ContextFormat.ParseFields | lena/context/functions.py:154-189 | the parsing loop computes the skeleton string and the field names of the recursive parse |
| ContextFormat.ParseAtFails | lena/context/functions.py:166-188 | a run of '{' or a field name that reaches the end of the string fails with IndexError |
| ContextFormat.ParseAtField | lena/context/functions.py:166-188 | a field copies its braces and makes its name a key, and parsing goes on from its terminator |
| ContextFormat.ParseAtShift | lena/context/functions.py:159-188 | parsing from a position depends only on the text from there on |
| ContextFormat.MakeFormatter | lena/context/functions.py:102-200 | `format_context(format_str)` with the parsing loop run imperatively gives the formatter of the functional model |
| ContextFormat.LookupAll | lena/context/functions.py:192-195 | each field name is looked up with `get_recursively`, in order, giving one value per name |
| ContextFormat.Strs | lena/context/functions.py:198 | each looked-up value is converted by `str`, in order |
| ContextFormat.ParseRender | lena/context/functions.py:159-188 | parsing a template rendered from literal pieces and fields gives the literal skeleton with empty fields and the list of field names |
| ContextFormat.Parse | lena/context/functions.py:152-189 | a template without "{" has no fields and is kept as it is; the only error is the IndexError of reading past the end |
| ContextFormat.ParseAtNoBrace | lena/context/functions.py:158-164 | text without "{" is copied as it is |
| ContextFormat.Format | lena/context/functions.py:191-199 | formatting succeeds only when every key is found in the context; a template without braces is the result as it is |
| ContextFormat.CollapseOpen | lena/context/functions.py:153 | replacing "{{" by "{" in a double-brace template gives the intermediate template |
| ContextFormat.CollapseClose | lena/context/functions.py:153 | replacing "}}" by "}" then gives the single-brace template |
| ContextFormat.CountRenderDouble | lena/context/functions.py:143 | a double-brace template has twice as many '{' and '}' as fields, so the balance check passes |
| ContextFormat.OpenBraceHasDouble | lena/context/functions.py:145 | a double-brace template with a '{' contains "{{", so the second check passes |
| ContextFormat.FormatContextRender | lena/context/functions.py:102-189 | every well-formed double-brace template is accepted and gives its skeleton and its field names |
| ContextFormat.PyFormatSkeleton | lena/context/functions.py:198 | formatting the skeleton puts each argument in place of its field |
| ContextFormat.ExampleParse | lena/context/functions.py:124-126 | `format_context("{{x.y}}_{{z}}")` has skeleton "{}_{}" and the keys "x.y" and "z" |
| ContextFormat.ExampleLookup | lena/context/functions.py:124-126 | in the context {"x": {"y": 10}, "z": 1} these keys give 10 and 1 |
| ContextFormat.ExampleFill | lena/context/functions.py:124-126 | `"{}_{}".format("10", "1")` is "10_1" |
| ContextFormat.FormatExample | lena/context/functions.py:124-126 | the formatter applied to that context returns "10_1" |
| CoreBuild.InitCallable | lena/core/adapters.py:44-65 | without a method name the element must be callable; with one, that method must exist and be callable; otherwise LenaTypeError |
| CoreBuild.MakeCall | lena/core/adapters.py:78-89 | `Call(el, call)` succeeds exactly when `_init_callable` does and is then callable |
| CoreBuild.MakeSourceEl | lena/core/adapters.py:428-438 | `SourceEl(el, call)` succeeds exactly when `_init_callable` does and is then callable |
| CoreBuild.MakeFillCompute | lena/core/adapters.py:104-126 | `FillCompute` succeeds exactly when the named fill and compute methods are callable, and is then a FillCompute element |
| CoreBuild.MakeFillInto | lena/core/adapters.py:140-187 | without a method name: a `fill_into` method, else a callable (wrapped as a call), else an explicit Run element; with a name: that method; otherwise LenaTypeError |
| CoreBuild.NaturalNumber | lena/core/adapters.py:257-261 | a buffer size is accepted exactly when it equals its integer value and is at least 1; a number that fails is LenaValueError; a string is never accepted: one that `int()` reads is unequal to its value (LenaValueError) and any other string is a ValueError from `int()`; None, lists, tuples and dicts are a TypeError from `int()` |
| CoreBuild.TrimStart | lena/core/adapters.py:257 | `int()` skips leading whitespace: the result is a suffix of the string, everything dropped is whitespace and the result does not start with whitespace |
| CoreBuild.TrimEnd | lena/core/adapters.py:257 | `int()` skips trailing whitespace: the result is a prefix of the string, everything dropped is whitespace and the result does not end with whitespace |
| CoreBuild.SpacedLiteral | lena/core/adapters.py:257 | `int(" 5")` reads 5 once the space is stripped |
| CoreBuild.GroupedLiteral | lena/core/adapters.py:257 | `int("-1_0\n")` reads a signed number whose digits are grouped by an underscore, with the trailing newline stripped |
| CoreBuild.DoubledUnderscore | lena/core/adapters.py:257 | `int("1__0")` raises: underscores must stand singly between digits |
| CoreBuild.MalformedLiterals | lena/core/adapters.py:257 | `int("_1")` and `int(" ")` raise: a leading underscore and a blank string are not numbers |
| CoreBuild.IntLiteralExamples | lena/core/adapters.py:257-261 | a buffer size `" 5"` or `"-1_0\n"` is LenaValueError, since `int()` reads it but it is a string; `"1__0"`, `"_1"` and `" "` are ValueError raised by `int()` itself |
| CoreBuild.MakeFillRequest | lena/core/adapters.py:214-266 | `FillRequest` needs a callable fill and either a callable request or both compute and reset, and a natural buffer size; the request is derived exactly when the element has none; the element's own `run` is kept when it has one |
| CoreBuild.MakeRun | lena/core/adapters.py:333-393 | without a method name a `run` method beats a callable, which beats a FillCompute element, and anything else is LenaTypeError; a named method must exist; `Run(None, run=f)` uses *f*, and a function given for a real element is a TypeError |
| CoreBuild.WrapOne | lena/core/sequence.py:35-49 | an element with `run` is kept and any other is wrapped in `Run`; a failed wrap is LenaTypeError |
| CoreBuild.WrapRunsSpec | lena/core/sequence.py:32-49 | the wrapping succeeds exactly when every argument has `run`, is callable or is a FillCompute element, and then gives one Run element per argument, the kept ones unchanged |
| CoreBuild.MakeSequence | lena/core/sequence.py:18-53 | `Sequence(*args)` succeeds exactly when every argument (a single tuple unpacked) can be wrapped, and stores one element per argument |
| CoreBuild.NewSequence | lena/core/sequence.py:29-49 | the appending loop of `Sequence.__init__` builds the same sequence as the functional model |
| CoreBuild.ObjectInit | lena/core/lena_sequence.py:7-22 | `LenaSequence` defines no `__init__`, so the inherited `object.__init__` accepts no arguments and raises TypeError otherwise |
| CoreBuild.MakeSourceAsWritten | lena/core/source.py:31-37 | no arguments is LenaTypeError; any arguments reach `super().__init__(*args)` and are a TypeError, so no Source can be built as written |
| CoreBuild.MakeSource | lena/core/source.py:16-63 | as intended: at least one argument whose head is callable or iterable, and a tail that is a valid Sequence; otherwise LenaTypeError; the tail is present exactly when there is more than one argument |
| CoreBuild.IntoOne | lena/core/fill_seq.py:61-75 | a non-last element keeps its `fill_into`, or a callable is converted by `FillInto(explicit=False)`; otherwise LenaTypeError |
| CoreBuild.IntoChainSpec | lena/core/fill_seq.py:61-75 | converting succeeds exactly when every non-last element has `fill_into` or is callable, giving one element with `fill_into` per input |
| CoreBuild.MakeFillSeqAsWritten | lena/core/fill_seq.py:44-50 | no arguments is LenaTypeError and any arguments are a TypeError from `super().__init__(*args)` |
| CoreBuild.MakeFillSeq | lena/core/fill_seq.py:33-85 | as intended: non-empty, the last argument has `fill`, every other has `fill_into` or is callable; otherwise LenaTypeError; the chain keeps the last element |
| CoreBuild.NewFillSeq | lena/core/fill_seq.py:61-85 | the conversion loop builds the same sequence as the functional model |
| CoreBuild.FirstFillCompute | lena/core/fill_compute_seq.py:90-95 | the index of the first FillCompute element, with none before it, or -1 exactly when there is none |
| CoreBuild.FindFillCompute | lena/core/fill_compute_seq.py:90-101 | the search loop finds that index |
| CoreBuild.FirstFillComputeIsFirst | lena/core/fill_compute_seq.py:90-95 | an index with a FillCompute element and none before it is the one found |
| CoreBuild.MakeFillComputeSeqAsWritten | lena/core/fill_compute_seq.py:82-84 | with arguments `super().__init__(*args)` is a TypeError; without them `self._seq` is missing |
| CoreBuild.MakeFillComputeSeq | lena/core/fill_compute_seq.py:68-116 | as intended: no FillCompute element is LenaTypeError; otherwise the arguments are split at the first one into a FillSeq ending with it and a Sequence after it |
| CoreBuild.FirstFillRequest | lena/core/fill_compute_seq.py:22-27 | the index of the first FillRequest element, with none before it, or -1 |
| CoreBuild.TryFillRequestSeq | lena/core/fill_request_seq.py:26-75 | `FillRequestSeq` never succeeds: without a FillRequest element it is LenaTypeError, and otherwise reading `fr._reset` fails |
| CoreBuild.SeqWithType | lena/core/split.py:17-60 | explicit types come first (Source, FillComputeSeq, Sequence); a FillCompute element is "fill_compute", a FillRequest element "fill_request" |
| CoreBuild.SourceTypeOnlySource | lena/core/split.py:23-24 | only a Source is classified as a source |
| CoreBuild.ClassifyAll | lena/core/split.py:104-114 | every branch is classified, in order, and each type matches what the branch can do |
| CoreBuild.MakeSplit | lena/core/split.py:66-140 | a non-list is LenaTypeError; the branches are altered and classified one to one; a buffer size other than None must be a natural number, else LenaValueError |
| CoreElements.LenIndices | lena/core/lena_sequence.py:18-22 | `seq[ind]` succeeds exactly for the indices from `-len(seq)` to `len(seq) - 1` |
| CoreElements.GetItem | lena/core/lena_sequence.py:21-22 | `seq[ind]` is the stored element at that position, counting from the end for a negative index; out of range is IndexError, and exactly then |
| CoreElements.SetItem | lena/core/lena_sequence.py:7-22 | item assignment is a TypeError: a LenaSequence does not define it |
| CoreElements.DelItem | lena/core/lena_sequence.py:7-22 | item deletion is a TypeError: a LenaSequence does not define it |
| CoreElements.SameRefl | lena/core/sequence.py:79-82 | sequence equality compares the element lists, and every sequence equals itself |
| CoreLaws.RunAllAppend | lena/core/sequence.py:66-77 | running a sequence of two parts is running the first part and feeding its output to the second |
| CoreLaws.RunSequence | lena/core/sequence.py:55-77 | `Sequence(*els).run(flow)` runs the elements in turn |
| CoreLaws.MapVals | lena/core/adapters.py:396-399 | one output per input, in order, each the function applied to its input |
| CoreLaws.CallEachMaps | lena/core/adapters.py:396-399 | `_call_run` maps the flow by the callable and changes no state |
| CoreLaws.RunCallableMaps | lena/core/adapters.py:365-374 | `Run(f)` for a callable *f* maps the flow by *f* |
| CoreLaws.MapSeqMaps | lena/core/sequence.py:55-77 | `Sequence(f)` maps the flow by *f* |
| CoreLaws.AccFills | lena/core/adapters.py:407-416 | filling an accumulator adds the total of the values filled to its state |
| CoreLaws.AccNeverStops | lena/core/split.py:251-258 | an accumulator never stops filling early |
| CoreLaws.RunAccumulates | lena/core/adapters.py:407-416 | `Run` of a FillCompute element fills every value and then yields the result of one `compute` |
| CoreLaws.BatchesJoin | lena/core/adapters.py:305-327 | the slices of `bufsize` values give back the flow, in order |
| CoreLaws.BatchesSized | lena/core/adapters.py:305-327 | every slice is non-empty and holds at most `bufsize` values, and every slice but the last exactly `bufsize` |
| CoreLaws.ProbeFills | lena/core/adapters.py:321-325 | a recording element filled with values records exactly those values, in order |
| CoreLaws.FillRequestBatches | lena/core/adapters.py:286-327 | `FillRequest.run` yields one request per slice of the flow; an empty trailing slice gives none; an empty flow gives exactly one request |
| CoreLaws.Islice | lena/core/adapters.py:306 | `islice(flow, n)` takes the first *n* values; it consumes an iterator but leaves a list as it is |
| CoreLaws.IteratorFlowAgrees | lena/core/adapters.py:286-327 | on an iterator the run as written equals the batched run and ends |
| CoreLaws.IteratorEnds | lena/core/adapters.py:308-319 | an exhausted iterator ends the loop |
| CoreLaws.IteratorPass | lena/core/adapters.py:305-327 | one pass of the loop over an iterator consumes one slice |
| CoreLaws.ListFlowNeverEnds | lena/core/adapters.py:305-327 | on a non-empty list every pass takes the same first slice again, so the loop never ends |
| CoreLaws.SumOverListRepeats | lena/core/adapters.py:305-327 | summing over the list [1] with buffer size 1 yields 1, 2, 3, ... without end |
| CoreLaws.SumPass | lena/core/adapters.py:321-327 | one pass of a summing element over [1] adds 1 and yields the new sum |
| CoreLaws.FillEachAppend | lena/core/split.py:253-258 | filling two runs of values one after the other is filling their concatenation |
| CoreLaws.FillChainAppend | lena/core/fill_seq.py:8-21 | filling a chain with two runs of values one after the other is filling it with their concatenation |
| CoreLaws.FillIntoCallMaps | lena/core/adapters.py:190-198 | a `FillInto` of a callable fills the rest of the chain with the mapped values |
| CoreLaws.MapSeqBranch | lena/core/split.py:285-290 | a `Sequence(f)` branch maps each buffer by *f* |
| CoreLaws.SplitBranchesMap | lena/core/split.py:234-297 | a pass over mapping branches yields each branch's mapped buffer, in branch order |
| CoreLaws.SplitFinishMap | lena/core/split.py:301-318 | after a non-empty flow, mapping branches yield nothing more |
| CoreLaws.SplitMapsBuffers | lena/core/split.py:215-318 | with buffers of *k* values, mapping branches yield each buffer mapped by each branch in turn |
| CoreLaws.SplitMapsWhole | lena/core/split.py:215-318 | with no buffer size the whole flow is one buffer |
| CoreLaws.EachMappedEmpty | lena/core/split.py:315-318 | an empty buffer maps to no output |
| CoreLaws.Interleave | lena/core/split.py:234-297 | two outputs for every input |
| CoreLaws.BufferedByOne | lena/core/split.py:215-297 | with buffers of one value the outputs of two mapping branches interleave |
| CoreLaws.InterleaveAt | lena/core/split.py:234-297 | the output at 2i is the first branch's value for input i, at 2i+1 the second's |
| CoreLaws.EachMappedTwo | lena/core/split.py:234-297 | two mapping branches yield the first's outputs for the buffer, then the second's |
| CoreLaws.TwoMapBranches | lena/core/split.py:104-114 | the branches of `Split([Sequence(f), Sequence(g)])` map by *f* and *g* |
| CoreLaws.SplitRun | lena/core/split.py:182-318 | `Split.run` is the buffered scheduling over its branches, starting with the flow marked empty |
| CoreLaws.SplitInterleaves | lena/core/split.py:182-318 | `Split([Sequence(f), Sequence(g)], bufsize=1)` interleaves f and g |
| CoreLaws.SplitUnbuffered | lena/core/split.py:182-318 | with `bufsize=None` it yields all of f's outputs, then all of g's |
| CoreLaws.AccBranchStep | lena/core/split.py:251-268 | a FillCompute branch is filled with the buffer, stays active and yields nothing |
| CoreLaws.AccFinishStep | lena/core/split.py:308-310 | after the flow a FillCompute branch yields its computed total |
| CoreLaws.KeptFirst | lena/core/split.py:234-297 | a branch that stays active yields its outputs before those of the rest of the pass |
| CoreLaws.FinishedFirst | lena/core/split.py:301-318 | at the end, branches yield in order |
| CoreLaws.AccPass | lena/core/split.py:251-268 | a buffer through a single accumulator branch adds its total |
| CoreLaws.PairPass | lena/core/split.py:234-297 | a buffer through two accumulator branches adds its total to each |
| CoreLaws.PairFinish | lena/core/split.py:301-310 | after the flow two accumulators yield their totals, in branch order |
| CoreLaws.PairSplit | lena/core/split.py:215-310 | two accumulator branches, over any buffer size, end with the totals of the whole flow |
| CoreLaws.BuffersStep | lena/core/split.py:222-297 | the buffering loop is one pass over the first buffer, then the loop over the rest |
| CoreLaws.SumCountExample | lena/core/split.py:182-318 | `Split([Sum(), Count()])` over 0, 1, 2, 3, 4, 0 yields 10 and 6 |
| CoreLaws.MakeMapSeq | lena/core/sequence.py:35-49 | `Sequence(f)` for a callable *f* wraps it in `Run` |
| CoreLaws.SourceOfData | lena/core/source.py:16-77 | a Source of a data list and a callable maps the data, while the source as written cannot be built |
| CoreLaws.FillSeqAddSubBuilt | lena/core/fill_seq.py:33-85 | `FillSeq(add, sub, store)` converts the callables to `FillInto`, while as written it cannot be built |
| CoreLaws.FillSeqAddSubFills | lena/core/fill_seq.py:87-93 | filling it with 1 stores 1 (add one, then subtract one) |
| CoreLaws.ChainAddSub | lena/core/fill_seq.py:8-21 | the chain of `_Fill` steps passes 1 through add and sub into the store |
| CoreLoops.FillLoop | lena/core/adapters.py:413-414 | the fill loop fills every value, in order, as the functional model does |
| CoreLoops.FillUntilStopLoop | lena/core/split.py:252-258 | the branch fill loop fills values until the element asks to stop, as the functional model does |
| CoreLoops.FillRequestStep | lena/core/adapters.py:305-327 | one pass of `FillRequest.run`: fill one slice, yield the request, go on with the rest of the flow |
| CoreLoops.RunFillRequest | lena/core/adapters.py:286-327 | the imperative loop of `FillRequest.run` computes the batched run |
| CoreLoops.SplitBranchesStep | lena/core/split.py:234-297 | one branch's step, then the pass over the branches after it; a finished branch is dropped from the active list |
| CoreLoops.PassDone | lena/core/split.py:247-250 | deleting the branch at *ind* keeps the branches before and after it, in order |
| CoreLoops.PassKept | lena/core/split.py:297 | keeping the branch at *ind* adds it to the kept prefix |
| CoreLoops.RunBranches | lena/core/split.py:234-297 | the inner loop over the active branches computes one pass of the functional model |
| CoreLoops.FinishBranches | lena/core/split.py:301-318 | the final loop over the remaining branches computes their last outputs |
| CoreLoops.RunSplit | lena/core/split.py:215-318 | the whole buffering loop of `Split.run` computes the functional model |
| CoreMeta.Leaves | lena/core/meta.py:37-42 | the leaves of nested sequences contain no sequence |
| CoreMeta.Flatten | lena/core/meta.py:30-49 | an element is returned as it is, a flat sequence too; otherwise the result is the list of leaves |
| CoreMeta.LeavesOfFlat | lena/core/meta.py:37-46 | members that contain no sequence are their own leaves |
| CoreMeta.LeavesAppend | lena/core/meta.py:37-42 | leaves of a concatenation are the concatenation of the leaves |
| CoreMeta.AlterSequence | lena/core/meta.py:6-27 | `alter_sequence` only fails by exceeding the recursion limit |
| CoreMeta.AlterScan | lena/core/meta.py:17-27 | the scan from the last element only fails by exceeding the recursion limit |
| CoreMeta.AlterUnchanged | lena/core/meta.py:6-27 | when no element alters the sequence, the original sequence is returned |
| CoreMeta.ScanUnchanged | lena/core/meta.py:17-27 | elements whose `alter_sequence` returns an equal sequence leave it unchanged |
| CoreMeta.AlterAll | lena/core/split.py:100 | every branch of a `Split` is altered, one result per branch |
| CoreRun.Chars | lena/core/functions.py:4-12 | iterating a string yields its characters, in order |
| CoreRun.Iterate | lena/core/functions.py:4-12 | a list or tuple yields its items and a string its characters; exactly the other values (a dict among them, see Left out) are a TypeError |
| CoreRun.IsliceStop | lena/core/split.py:227 | a non-negative integer is a slice stop, None is no stop, and anything else is ValueError |
| CoreRun.Branches | lena/core/split.py:215-216 | the active branches pair each sequence with its type, in order |
| CoreRun.BranchesBounded | lena/core/split.py:215-216 | each branch is smaller than the Split, so running a branch terminates |
| CoreRun.Updated | lena/core/adapters.py:407-416 | updating an element's state changes only that element's state |
| CoreRun.Invoke | lena/core/adapters.py:68-445 | plain data has no methods (TypeError for a call, AttributeError otherwise); a user element has only its own methods; a `Split` without sequences passes its flow through |
| CoreRun.RunFlow | lena/core/split.py:129-130 | running plain data is an AttributeError; an empty `Split` passes the flow through |
| CoreRun.RunAll | lena/core/sequence.py:55-77 | an empty sequence passes the flow as it is; a sequence of one element runs that element |
| CoreRun.FillRequestRun | lena/core/adapters.py:286-327 | a non-empty flow that fits in one buffer is filled once and requested once; an empty remainder after a fill makes no request |
| CoreRun.SplitBuffers | lena/core/split.py:215-318 | a buffer size of zero consumes nothing and goes straight to the finish; without a buffer size the whole flow is one buffer, followed by the finish |
| CoreRun.SplitBranches | lena/core/split.py:234-297 | a pass keeps a subset of the active branches |
| MetaMerge.Rebuild | lena/meta/merge.py:112-116 | `type(seqs[0])(*head)` builds a sequence of the same kind as the first one |
| MetaMerge.Collect | lena/meta/merge.py:72-90 | collecting the elements at one index only fails when a sequence is too short (IndexError) |
| MetaMerge.CollectSucceeds | lena/meta/merge.py:72-90 | the collection succeeds exactly when every sequence has the index, and starts with the first sequence's element |
| MetaMerge.CollectCovers | lena/meta/merge.py:72-90 | every sequence's element at the index is among those collected |
| MetaMerge.CollectDistinct | lena/meta/merge.py:87-90 | no two collected elements are equal |
| MetaMerge.Rows | lena/meta/merge.py:102-103 | the members of each sequence, in order |
| MetaMerge.TailsAreLists | lena/meta/merge.py:102-106 | every tail collected is a non-empty slice of a sequence |
| MetaMerge.MergesOf | lena/meta/merge.py:98-107 | one merge per distinct element: the element followed by the tails that follow it, unmerged, because `merge_heads(el_merges)` is given a single argument |
| MetaMerge.MergeHeads | lena/meta/merge.py:51-62 | one sequence is returned as it is; no sequences, or sequences of different kinds, are LenaTypeError |
| MetaMerge.CollectLoop | lena/meta/merge.py:72-90 | the collection loop computes the functional model |
| MetaMerge.TailsLoop | lena/meta/merge.py:100-106 | the tail loop computes the functional model |
| MetaMerge.MergesLoop | lena/meta/merge.py:98-107 | the merge loop computes the functional model |
| MetaMerge.Merge | lena/meta/merge.py:9-116 | `merge_heads` with its loops computes the functional model |
| MetaMerge.CollectAgreeing | lena/meta/merge.py:72-95 | where all sequences agree, only one element is collected |
| MetaMerge.MergeFromAgreeing | lena/meta/merge.py:69-95 | up to the first difference the loop only extends the common head |
| MetaMerge.MergeEqual | lena/meta/merge.py:114-116 | sequences that agree everywhere merge into a rebuild of the first one |
| MetaMerge.MergeEqualSources | lena/meta/merge.py:44 | `merge_heads(s1, s1)` is equal to *s1* |
| MetaMerge.MergeAtDifference | lena/meta/merge.py:97-112 | at the first difference the result is the common head followed by a Split of the merges |
| MetaMerge.TupleWithTailRejected | lena/meta/merge.py:107-110 | a merge tuple of a plain element and its tails is not accepted by `Split`, which classifies it as an unknown argument |
| FlowDropContext.Unpack | lena/flow/drop_context.py:32 | a (data, context) pair unpacks into its two parts; anything else is a TypeError or ValueError |
| FlowDropContext.Restore | lena/flow/drop_context.py:47-54 | a result without context is paired with the current context; a result with context updates the current context, which it is paired with |
| FlowDropContext.DropRun | lena/flow/drop_context.py:36-54 | one output per result of the inner sequence |
| FlowDropContext.DropContext.constructor | lena/flow/drop_context.py:25-29 | no context has been seen yet |
| FlowDropContext.DropContext.PullInputs | lena/flow/drop_context.py:31-34 | pulling inputs sets the current context to the last one pulled |
| FlowDropContext.DropContext.Run | lena/flow/drop_context.py:36-54 | the run loop computes the outputs and the final context of the functional model |
| FlowDropContext.DropRunStep | lena/flow/drop_context.py:44-54 | one result: pull the inputs it needed, then restore its context |
| FlowDropContext.PullToContexts | lena/flow/drop_context.py:31-34 | after pulling inputs with context, the current context is the context of the last input pulled |
| FlowDropContext.DropRunPairs | lena/flow/drop_context.py:36-54 | each result is paired with the context of the last input pulled before it |
| FlowDropContext.DropMapEach | lena/flow/drop_context.py:36-54 | for an inner sequence that maps each datum, each output is the mapped datum with its own input's context |
| FlowDropContext.DropAfterAll | lena/flow/drop_context.py:36-54 | for an inner sequence that reads the whole flow first, every output gets the last input's context |
| FlowDropContext.RestoreMerges | lena/flow/drop_context.py:49-54 | a context added by the sequence stays in the current context for the results after it |
| FlowFilter.MakeFilter | lena/flow/filter.py:39-41 | a callable is used as it is; anything else becomes a Selector, and exactly when that fails the result is LenaTypeError |
| FlowFilter.FilterRun | lena/flow/filter.py:52-56 | the values yielded all pass the selector, in order; a selector error on some value is the only failure |
| FlowFilter.FilterRunAppend | lena/flow/filter.py:56 | filtering a concatenation is filtering each part |
| FlowFilter.FilterRunOne | lena/flow/filter.py:56 | a single value is kept exactly when the selector returns true |
| FlowFilter.FillInto | lena/flow/filter.py:43-50 | the value is filled exactly when the selector returns true |
| FlowFilter.FillIntoAgreesWithRun | lena/flow/filter.py:43-56 | `fill_into` fills a value exactly when `run` would yield it |
| FlowFilter.ConsKept | lena/flow/filter.py:56 | a passing value is yielded before the rest |
| FlowFilter.ConsDropped | lena/flow/filter.py:56 | a failing value is dropped |
| FlowFilter.IntOrStrFilter | lena/flow/filter.py:39-41 | `Filter([int, str])` becomes a selector for either class |
| FlowFilter.ListFilterExample | lena/flow/filter.py:39-56 | `Filter(1)` is LenaTypeError; `Filter([int, str])` keeps integers, strings and data pairs of them |
| FlowFilter.FunctionFilterExample | lena/flow/filter.py:39-56 | a callable filter keeps exactly the truthy values |
| FlowElements.Count.constructor | lena/flow/elements.py:23-39 | a counter with the given name and count and an empty current context |
| FlowElements.Count.Fill | lena/flow/elements.py:41-44 | `fill` adds one to the count and makes the value's context current |
| FlowElements.Count.Compute | lena/flow/elements.py:46-54 | `compute` yields the count with the current context updated by {name: count}, and repeating it changes nothing |
| FlowElements.Count.FillInto | lena/flow/elements.py:56-66 | `fill_into` adds one to the count and fills the value with its own context updated by {name: count} |
| FlowElements.Count.Reset | lena/flow/elements.py:68-72 | `reset` sets the count to zero and clears the context |
| FlowElements.Count.Run | lena/flow/elements.py:74-106 | `run` yields every value unchanged except the last, whose context gets {name: total count}; an empty flow yields nothing and counts nothing |
| FlowElements.CountRunExample | lena/flow/elements.py:74-106 | `Count("my_counter").run([0, 1, 2])` yields 0, 1 and (2, {"my_counter": 3}) |
| FlowElements.CountFillExample | lena/flow/elements.py:46-72 | a counter computes its count after fills, and 0 after a reset |
| FlowElements.MakeRunIf | lena/flow/elements.py:156-196 | *select* must convert to a Selector and the arguments to a Sequence (a single Sequence is kept), else LenaTypeError |
| FlowElements.RunIfLoop | lena/flow/elements.py:212-217 | the loop of `RunIf.run` computes the functional model |
| FlowElements.RunIfNoneSelected | lena/flow/elements.py:212-217 | when no value is selected the flow passes unchanged |
| FlowElements.MapIf | lena/flow/elements.py:212-217 | one output per input: selected values mapped, the others kept |
| FlowElements.RunIfMaps | lena/flow/elements.py:198-217 | `RunIf(select, f)` maps exactly the selected values by *f* |
| FlowElements.RunIfInitExample | lena/flow/elements.py:156-196 | `RunIf(float, add_1)` builds; a non-selector or a non-element argument is LenaTypeError |
| FlowElements.RunIfRunExample | lena/flow/elements.py:198-217 | `RunIf(float, add_1).run([1, 2.5])` yields 1 and 3.5 |
| FlowElements.MakeRunningChunkByAsWritten | lena/flow/elements.py:238-241 | a non-callable container raises NameError, because `LenaTypeError` is not imported in this module |
| FlowElements.MakeRunningChunkBy | lena/flow/elements.py:223-244 | a non-callable container is LenaTypeError; otherwise the element keeps the size and the container |
| FlowElements.ChunkConstructorsDiffer | lena/flow/elements.py:238-241 | as written and corrected constructors agree except on the error they raise |
| FlowElements.RunChunks | lena/flow/elements.py:246-276 | a negative size is ValueError; a flow shorter than the size yields nothing; otherwise one chunk per window of consecutive values, in order |
| FlowElements.ChunkExample | lena/flow/elements.py:229-234 | `RunningChunkBy(2)` over 0..4 yields (0, 1), (1, 2), (2, 3), (3, 4) |
| FlowElements.EndEl | lena/flow/elements.py:278-289 | `End` is an element with a run method |
| FlowElements.EndStopsSequence | lena/flow/elements.py:281-289 | a sequence ending with `End` runs everything before it and yields nothing |
| FlowGroupBy.MakeKeyFn | lena/flow/group_by.py:26-37 | a callable is the key function, a string a context path; anything else is LenaTypeError |
| FlowGroupBy.GroupKey | lena/flow/group_by.py:45-46 | the group key of a value; an unhashable key is a TypeError |
| FlowGroupBy.TotalGrow | lena/flow/group_by.py:46-47 | adding a value to an existing group adds one to the total |
| FlowGroupBy.TotalNew | lena/flow/group_by.py:48-49 | a new group of one value adds one to the total |
| FlowGroupBy.TotalSame | lena/flow/group_by.py:39-49 | groups outside the listed keys do not count |
| FlowGroupBy.InsertGrows | lena/flow/group_by.py:45-49 | inserting appends the value to the group of the listed key equal to its key as Python compares them (a new group if there is none), keeps all other groups and the key order, and adds one to the total |
| FlowGroupBy.AddAllGrows | lena/flow/group_by.py:39-49 | adding values keeps the groups well-formed and adds their number to the total |
| FlowGroupBy.GroupBy.constructor | lena/flow/group_by.py:17-37 | no groups yet |
| FlowGroupBy.GroupBy.Update | lena/flow/group_by.py:39-49 | a value is added to the group of its key, which is created if new; a failed key changes nothing |
| FlowGroupBy.GroupBy.Clear | lena/flow/group_by.py:51-53 | `clear` removes all groups |
| FlowGroupBy.UnhashableExample | lena/flow/group_by.py:45-47 | a list key is a TypeError and adds nothing |
| FlowGroupBy.GroupByExample | lena/flow/group_by.py:39-49 | grouping 1, 2, 3 by parity gives the groups [1, 3] and [2], in order of first key |
| FlowGroupScale.MakeGroupScale | lena/flow/group_scale.py:27-32 | a number is the scale itself; anything else becomes a Selector, else LenaTypeError |
| FlowGroupScale.Candidates | lena/flow/group_scale.py:51 | the selected items of the group |
| FlowGroupScale.ScaleOf | lena/flow/group_scale.py:48-63 | a number is the scale; otherwise exactly one item must be selected (else LenaValueError) and its scale is used |
| FlowGroupScale.RescaleOne | lena/flow/group_scale.py:67-87 | one item rescaled with its context kept; an unknown scale is kept or LenaValueError by *allow_unknown_scale*, a zero scale by *allow_zero_scale*; other errors pass through |
| FlowGroupScale.Scale | lena/flow/group_scale.py:34-88 | the loop of `scale` computes the functional model |
| FlowGroupScale.RescaleAllItems | lena/flow/group_scale.py:66-88 | rescaling succeeds exactly when every item does, giving one item per input with its context |
| FlowGroupScale.Tolerant | lena/flow/group_scale.py:20-25 | with both options set, every item is rescaled or left as it is |
| FlowGroupScale.RescaleSingle | lena/flow/group_scale.py:66-88 | a group of one item |
| FlowGroupScale.RescaleTwo | lena/flow/group_scale.py:66-88 | two items are rescaled one after the other |
| FlowGroupScale.ScaleToSelectedExample | lena/flow/group_scale.py:48-88 | scaling to the item selected by context "data" rescales the other histogram to its scale |
| FlowGroupScale.HistRescaled | lena/flow/group_scale.py:70 | a histogram with a non-zero scale gets the new scale |
| FlowGroupScale.ScaleErrorsExample | lena/flow/group_scale.py:52-86 | a zero scale and an unknown scale are errors unless allowed, and no selected item is LenaValueError |
| FlowGroupPlots.ChangedPathKeys | lena/flow/group_plots.py:229 | the path "output.changed" is the keys "output" and "changed" |
| FlowGroupPlots.ChangedOf | lena/flow/group_plots.py:75-81 | `get_recursively(c, "output.changed", default)`: the nested flag if present, else the default |
| FlowGroupPlots.ChangedUpdate | lena/flow/group_plots.py:232 | `update_recursively(c, "output.changed", b)` merges {"output": {"changed": b}} into the context |
| FlowGroupPlots.SetChanged | lena/flow/group_plots.py:232 | after it the flag is *b*, "output" is added and every other key is kept |
| FlowGroupPlots.ContextsOf | lena/flow/group_plots.py:226 | the context of each item, in order |
| FlowGroupPlots.DataOf | lena/flow/group_plots.py:236 | the data part of each item, in order |
| FlowGroupPlots.DictValsAreDicts | lena/flow/group_plots.py:231 | contexts passed to `intersection` are all dictionaries |
| FlowGroupPlots.CommonContext | lena/flow/group_plots.py:231 | the intersection of the item contexts cannot fail and is contained in each of them |
| FlowGroupPlots.GroupPlotsOf | lena/flow/group_plots.py:217-237 | `group_plots(group)`: the data parts as a list, "group" set to the contexts, output.changed true exactly when some item changed, and the common context kept elsewhere |
| FlowGroupPlots.ChangedFlags | lena/flow/group_plots.py:79-82 | the changed flag of each new context, None when absent |
| FlowGroupPlots.GroupChanged | lena/flow/group_plots.py:79-91 | collecting the flags in a set fails with TypeError exactly when one is unhashable; "unchanged" is decided only when no flag is true |
| FlowGroupPlots.WithChanged | lena/flow/group_plots.py:94-97 | output.changed is set when decided, every other key kept; nothing changes otherwise |
| FlowGroupPlots.ContextUpdate | lena/flow/group_plots.py:99-101 | the old intersection updated with the difference contains the new intersection |
| FlowGroupPlots.UpdateWithGroup | lena/flow/group_plots.py:73-105 | `_update_with_group` fails only on an unhashable flag, and sets "group" to the new contexts |
| FlowGroupPlots.UpdateWithGroupContents | lena/flow/group_plots.py:73-105 | the new part of the common context is merged in, other keys are kept, and output.changed is set as the flags decide |
| FlowGroupPlots.MakeMapGroup | lena/flow/group_plots.py:111-133 | the arguments must form a Sequence and the only keyword allowed is *map_scalars* (default true), else LenaTypeError |
| FlowGroupPlots.Len | lena/flow/group_plots.py:168 | `len(v)` of an iterable value is its number of items; an unsized value is a TypeError |
| FlowGroupPlots.RunItems | lena/flow/group_plots.py:177-180 | one list of results per group item |
| FlowGroupPlots.MapItems | lena/flow/group_plots.py:177-180 | the `enumerate(data)` loop computes the functional model |
| FlowGroupPlots.Column | lena/flow/group_plots.py:194-197 | the *i*-th results of all items: their data parts and contexts |
| FlowGroupPlots.ColumnOut | lena/flow/group_plots.py:199-214 | each value yielded is a column's data with "group" set to the column's contexts |
| FlowGroupPlots.Gather | lena/flow/group_plots.py:193-197 | one result per index |
| FlowGroupPlots.GatherItems | lena/flow/group_plots.py:193-197 | gathering succeeds exactly when every index does, each result in its place |
| FlowGroupPlots.GatherFromStart | lena/flow/group_plots.py:193-197 | the same, counted from 0 |
| FlowGroupPlots.RunGroup | lena/flow/group_plots.py:168-180 | a group whose data and "group" differ in length is LenaRuntimeError; otherwise one result list per item |
| FlowGroupPlots.Emit | lena/flow/group_plots.py:183-189 | an empty group is an IndexError; results of different lengths are LenaRuntimeError |
| FlowGroupPlots.EmitYields | lena/flow/group_plots.py:183-214 | one value is yielded per result position, the *k*-th value being the *k*-th column with its group contexts |
| FlowGroupPlots.ColumnsYield | lena/flow/group_plots.py:199-214 | the *k*-th value yielded is that of the *k*-th column |
| FlowGroupPlots.RunGroupItems | lena/flow/group_plots.py:168-180 | the length checks and the loop over a group's items compute `RunGroup` |
| FlowGroupPlots.EmitValues | lena/flow/group_plots.py:183-189 | the loop checking that all items gave as many results as the first computes `Emit` |
| FlowGroupPlots.MapGroupValue | lena/flow/group_plots.py:155-214 | one value of `MapGroup.run`, with the loop over its items, computes the functional model |
| FlowGroupPlots.MapGroupFlowFirst | lena/flow/group_plots.py:155 | the run handles the first value, then the rest of the flow |
| FlowGroupPlots.MapGroupRun | lena/flow/group_plots.py:135-214 | the loop of `MapGroup.run` computes the functional model |
| FlowGroupPlots.ScalarsPass | lena/flow/group_plots.py:159-161 | with *map_scalars* false, values that are not groups pass unchanged |
| FlowGroupPlots.RunItemsMaps | lena/flow/group_plots.py:177-180 | with `Sequence(f)` each item (with its group context) is mapped by *f* |
| FlowGroupPlots.MapGroupMaps | lena/flow/group_plots.py:168-214 | a group is mapped item by item and yields one value |
| FlowGroupPlots.MapGroupErrorsExample | lena/flow/group_plots.py:159-189 | an empty group is IndexError, a size mismatch LenaRuntimeError, and a scalar passes when *map_scalars* is false |
| FlowGroupPlotsClass.MakeConfig | lena/flow/group_plots.py:287-311 | no selector selects everything; a selector is kept and anything else converted (else LenaTypeError); likewise the scale and the transform Sequence |
| FlowGroupPlotsClass.SelectedVals | lena/flow/group_plots.py:337-341 | the selected values of a flow, in order |
| FlowGroupPlotsClass.UnselectedVals | lena/flow/group_plots.py:342-343 | the values not selected, in order |
| FlowGroupPlotsClass.PassGroups | lena/flow/group_plots.py:337-343 | the pass over the flow adds exactly the selected values to the groups and yields every value when *yield_selected*, otherwise only the unselected ones |
| FlowGroupPlotsClass.PassUnselected | lena/flow/group_plots.py:342-343 | when nothing is selected the flow passes unchanged and no group is made |
| FlowGroupPlotsClass.PassAccumulates | lena/flow/group_plots.py:337-343 | the groups stay well-formed, keep their key order and grow by the number of selected values |
| FlowGroupPlotsClass.EmitEach | lena/flow/group_plots.py:347-355 | one value per group key |
| FlowGroupPlotsClass.EmitGroupShape | lena/flow/group_plots.py:352-355 | a group is yielded as one value whose data has one entry per item |
| FlowGroupPlotsClass.EmitEachShaped | lena/flow/group_plots.py:347-355 | each value has one data entry per item of its group |
| FlowGroupPlotsClass.EmitGroupsYields | lena/flow/group_plots.py:345-355 | the groups are yielded in key order, each of its own size |
| FlowGroupPlotsClass.EmitEachSame | lena/flow/group_plots.py:347-355 | emitters that agree on every group yield the same |
| FlowGroupPlotsClass.ScaleCallAsWritten | lena/flow/group_plots.py:349-350 | as written, any group with a scale fails with TypeError, since a GroupScale is not callable; without a scale both versions agree |
| FlowGroupPlotsClass.EmitEachOne | lena/flow/group_plots.py:347-355 | one key: its group is made one value |
| FlowGroupPlotsClass.ScaleOneHist | lena/flow/group_scale.py:48-88 | a histogram of scale 2 scaled to 1 |
| FlowGroupPlotsClass.ScaleEmitHist | lena/flow/group_plots.py:349-355 | with the identity transform the scaled group is yielded |
| FlowGroupPlotsClass.ScaleExample | lena/flow/group_plots.py:349-355 | scaling a histogram group to 1 fails as written and yields the rescaled histogram when corrected |
| FlowGroupPlotsClass.EmitOne | lena/flow/group_plots.py:348-355 | one group of `run`, scaled, mapped and made one value, as the functional model does |
| FlowGroupPlotsClass.EmitAll | lena/flow/group_plots.py:345-355 | the loop over the groups computes the functional model |
| FlowGroupPlotsClass.GroupPlots.constructor | lena/flow/group_plots.py:243-311 | the element keeps its configuration and its GroupBy |
| FlowGroupPlotsClass.GroupPlots.Run | lena/flow/group_plots.py:313-355 | `run` updates the GroupBy with the selected values, yields the passing values, then one value per group; a key error stops the run |
| FlowGroupPlotsClass.NewGroupPlots | lena/flow/group_plots.py:243-311 | construction fails with LenaTypeError exactly when a selector, scale, transform or group key cannot be made; a new GroupBy starts empty |
| FlowIterators.Concat | lena/flow/iterators.py:23 | the concatenation of the iterables, in order |
| FlowIterators.ConcatAppend | lena/flow/iterators.py:23 | chaining two lists of iterables is chaining each |
| FlowIterators.Chain.constructor | lena/flow/iterators.py:18-23 | the iterables are pending |
| FlowIterators.Chain.Call | lena/flow/iterators.py:25-28 | a call yields the concatenation and exhausts the chain |
| FlowIterators.ChainExample | lena/flow/iterators.py:18-28 | `Chain([1, 2, 3], "ab")` yields 1, 2, 3, "a", "b" once, and nothing on a second call |
| FlowIterators.CountFrom.constructor | lena/flow/iterators.py:36-37 | the counter starts at *start* with *step* |
| FlowIterators.CountFrom.Take | lena/flow/iterators.py:39-42 | taking *n* values yields start + k * step for each *k* and advances the counter |
| FlowIterators.CountFromExample | lena/flow/iterators.py:31-42 | `CountFrom(10, 2)` yields 10, 12, 14, 16, 18 first |
| FlowIterators.MakeSlice | lena/flow/iterators.py:47-56 | `islice` arguments: (stop) or (start, stop[, step]); a negative stop or start or a non-positive step is ValueError; a wrong number of arguments is TypeError |
| FlowIterators.MultiplesApart | lena/flow/iterators.py:56-57 | indices kept by a step are at least a step apart |
| FlowIterators.SliceFrom | lena/flow/iterators.py:75-78 | a slice keeps at most the values given |
| FlowIterators.SliceRun | lena/flow/iterators.py:75-78 | `ISlice.run` keeps the values whose positions are in the slice |
| FlowIterators.SliceFromAppend | lena/flow/iterators.py:75-78 | slicing a concatenation is slicing each part at its positions |
| FlowIterators.SliceFromOne | lena/flow/iterators.py:75-78 | one value is kept exactly when its position is in the slice |
| FlowIterators.SliceFromSnoc | lena/flow/iterators.py:75-78 | one more value is kept exactly when its position is in the slice |
| FlowIterators.SliceNoneBefore | lena/flow/iterators.py:75-78 | nothing before *start* is kept |
| FlowIterators.SliceNoneAfter | lena/flow/iterators.py:75-78 | nothing from *stop* on is kept |
| FlowIterators.SliceAllKept | lena/flow/iterators.py:75-78 | with step 1 everything between start and stop is kept |
| FlowIterators.SliceStepOne | lena/flow/iterators.py:75-78 | with step one the slice is `flow[start:stop]` |
| FlowIterators.ExhaustedStays | lena/flow/iterators.py:66-70 | once no index is left, none is left later either |
| FlowIterators.ISlice.constructor | lena/flow/iterators.py:47-59 | the element starts at index 0 |
| FlowIterators.ISlice.KeptIsNext | lena/flow/iterators.py:66-72 | up to the next index drawn, only that index is kept |
| FlowIterators.ISlice.FillInto | lena/flow/iterators.py:61-73 | `fill_into` fills the value exactly when its index is in the slice and advances the index; past the last index it raises LenaStopFill and changes nothing |
| FlowIterators.ISlice.FillAll | lena/flow/iterators.py:61-73 | filling values one by one fills exactly those that `run` would yield, unless the slice is exhausted first |
| FlowIterators.ISliceExample | lena/flow/iterators.py:47-73 | `ISlice(a, b)` fills a, ..., b-1 from 0, 1, ... and then raises LenaStopFill |
| FlowIterators.RangeSlice | lena/flow/iterators.py:75-78 | slicing 0..b-1 from *a* to *b* gives a..b-1 |
| Selectors.Make | lena/flow/selectors.py:49-95 | a class or function is kept; a string selects by context; a list becomes "any of" and a tuple "all of" its converted items, and it succeeds exactly when every item converts; anything else raises LenaTypeError |
| Selectors.MakeAll | lena/flow/selectors.py:81-90 | every item is converted in order; this succeeds exactly when each item converts, and otherwise raises LenaTypeError |
| Selectors.SelectedMeaning | lena/flow/selectors.py:14-39 | a class selector tests `isinstance` on the data part, where a value is an instance of its own class, of its base classes and of `object`; a string selector tests `contains` on the context; a function selector is true only when it returns a truthy value without raising; "any of", "all of" and `Not` mean what their names say |
| Selectors.Bases | lena/structures/histogram.py:9 | the base classes never include `object` or the class itself; `Histogram` derives from `FillCompute`, `bool` from `int`, `Combine` and `Compose` from `Variable`, `Not` from `Selector` and `HistToCSV` from `ToCSV` |
| Selectors.BasesClosed | lena/structures/histogram.py:9 | no base in the table has a base of its own, so one lookup gives every ancestor |
| Selectors.SubclassSelected | lena/flow/selectors.py:68-71 | a class selector selects instances of subclasses: `FillCompute` selects a histogram, `int` a boolean, `Variable` a `Compose` and `object` anything, while `Histogram` does not select a plain `FillCompute` |
| Selectors.AnySelectedIff | lena/flow/selectors.py:14-25 | `_SelectorOr` is true exactly when some member selects the value |
| Selectors.AllSelectedIff | lena/flow/selectors.py:28-39 | `_SelectorAnd` is true exactly when every member selects the value |
| Selectors.MakeNot | lena/flow/selectors.py:113-130 | `Not(arg)` builds when *arg* builds, and selects exactly the values that *arg*'s selector rejects |
| Selectors.RaisingSelector | lena/flow/selectors.py:97-110 | a selector that raises gives False, so its negation gives True |
| Selectors.ListAnyTupleAll | lena/flow/selectors.py:81-90 | a list of selectors selects when any of them does, a tuple of the same ones when all of them do |
| FlowSeqMap.RunEach | lena/flow/functions.py:71 | one result list per container value |
| FlowSeqMap.Firsts | lena/flow/functions.py:77 | the single element of each result, in order |
| FlowSeqMap.SeqMap | lena/flow/functions.py:59-78 | a failing run is re-raised; with *one_result*, a result that is not exactly one element raises LenaValueError, and otherwise the i-th output is the single result of the i-th value; without it, the result lists are returned in container order |
| FlowSeqMap.RunEachMaps | lena/flow/functions.py:71 | a sequence that maps each value gives the list [g(v)] for each value v, in order |
| FlowSeqMap.SeqMapMaps | lena/flow/functions.py:59-78 | `seq_map` of a mapping sequence is the map of the container, in order |
| FlowSeqMap.SeqMapTwiceExample | lena/flow/functions.py:72-78 | a sequence that yields two values raises LenaValueError with *one_result* and gives the two-element list without it |
| FlowSplitIntoBins.Grid | lena/structures/hist_functions.py:281-322 | the bins built for the given sizes have that shape |
| FlowSplitIntoBins.Product | lena/flow/split_into_bins.py:23-25 | the index product lists the indices of the grid, in the order `iter_bins` visits them |
| FlowSplitIntoBins.CellOnIndex | lena/structures/hist_functions.py:77-107 | on bins of a known shape, `get_bin_on_index` finds a cell exactly when the index has one entry per axis and each entry is in range |
| FlowSplitIntoBins.ProductMembers | lena/flow/split_into_bins.py:23-25 | an index is in the product exactly when it has one entry per axis and each entry is in range |
| FlowSplitIntoBins.ProductOrdered | lena/flow/split_into_bins.py:23-25 | the product is strictly increasing in lexicographic order, so each index appears once |
| FlowSplitIntoBins.EdgePairs | lena/flow/split_into_bins.py:27-32 | for each axis, the low and high edge of the bin at the index |
| FlowSplitIntoBins.BinsWithEdges | lena/flow/split_into_bins.py:23-34 | succeeds exactly when every index finds a bin; the j-th result pairs the bin at the j-th index with its edges |
| FlowSplitIntoBins.EdgeAxes | lena/flow/split_into_bins.py:21-22 | empty edges raise IndexError; otherwise one-dimensional edges are wrapped into a list of axes |
| FlowSplitIntoBins.IterBinsWithEdgesShaped | lena/flow/split_into_bins.py:13-34 | on valid edges and bins of the matching shape, every in-range index is visited, each visit yields the cell at its index, and on every axis the low edge lies below the high edge |
| FlowSplitIntoBins.IterBinsWithEdges | lena/flow/split_into_bins.py:13-34 | empty edges raise IndexError; otherwise one pair per index of the grid, in product order, with the bin at that index |
| FlowSplitIntoBins.IterIsBins | lena/flow/split_into_bins.py:13-34 | `_iter_bins_with_edges` pairs every index of the product with its bin and edges |
| FlowSplitIntoBins.EdgesIncrease | lena/flow/split_into_bins.py:27-32 | on increasing axes the low edge of every bin lies below its high edge |
| FlowSplitIntoBins.ShapedBins | lena/flow/split_into_bins.py:23-26 | on bins of a known shape every index of the product finds a cell |
| FlowSplitIntoBins.OnIndexAt | lena/structures/hist_functions.py:77-107 | along a valid path `get_bin_on_index` finds the bins at that path |
| FlowSplitIntoBins.IterTwo | lena/structures/hist_functions.py:348-361 | two cells are visited in order with indices [0] and [1] |
| FlowSplitIntoBins.IterTwoByTwo | lena/structures/hist_functions.py:348-361 | two rows of two cells are visited row by row |
| FlowSplitIntoBins.IterBinsWithEdgesExample | lena/flow/split_into_bins.py:13-34 | one-dimensional edges [x0, x1, x2] give the two cells with edges (x0, x1) and (x1, x2) |
| FlowSplitIntoBins.ProductTwoByTwo | lena/flow/split_into_bins.py:23-25 | two axes of two bins each give [0,0], [0,1], [1,0], [1,1] |
| FlowSplitIntoBins.BinsTwoByTwo | lena/structures/hist_functions.py:77-107 | each of the four indices of a 2x2 grid finds its own cell |
| FlowSplitIntoBins.EdgePairsTwo | lena/flow/split_into_bins.py:27-32 | in two dimensions the index [i, j] has the edges (xs[i], xs[i+1]) and (ys[j], ys[j+1]) |
| FlowSplitIntoBins.IterBinsWithEdges2dExample | lena/flow/split_into_bins.py:13-34 | a 2x2 grid with three edges per axis yields its four cells row by row, each with its two edge pairs |
| FlowSplitIntoBins.Reversed | lena/flow/split_into_bins.py:98-99 | the same elements in the opposite order |
| FlowSplitIntoBins.CombinedNames | lena/flow/split_into_bins.py:83-88 | the `name` of every combined variable, in order; a missing name raises |
| FlowSplitIntoBins.CoordNames | lena/flow/split_into_bins.py:80-90 | without a variable context the names are `coord0`, `coord1`, ...; a plain variable gives its `name`, and a missing `name` raises KeyError |
| FlowSplitIntoBins.CoordStrings | lena/flow/split_into_bins.py:96-97 | every coordinate is formatted in order; this succeeds exactly when each one formats |
| FlowSplitIntoBins.CellToString | lena/flow/split_into_bins.py:61-101 | a number of names different from the number of coordinates raises LenaValueError; otherwise the formatted coordinates are joined, in reverse order when *reverse* is set |
| FlowSplitIntoBins.FormatEachReversedOk | lena/flow/split_into_bins.py:96-99 | when every (edge, name) pair formats, the reversed pairs format into the reversed strings |
| FlowSplitIntoBins.FormatEachReversedFails | lena/flow/split_into_bins.py:96-99 | when some pair fails to format, some reversed pair fails too |
| FlowSplitIntoBins.CoordStringsReversed | lena/flow/split_into_bins.py:96-99 | formatting the reversed coordinates and names gives the reversed strings |
| FlowSplitIntoBins.CellToStringReverse | lena/flow/split_into_bins.py:98-100 | *reverse* gives the same string as the reversed coordinates and names without it |
| FlowSplitIntoBins.FormatLiteral | lena/flow/split_into_bins.py:96-97 | `str.format` copies text without braces |
| FlowSplitIntoBins.FormatField | lena/flow/split_into_bins.py:96-97 | an empty field `{}` takes the next argument |
| FlowSplitIntoBins.FormatExample | lena/flow/split_into_bins.py:63 | the default format "{}_lte_{}_lt_{}" gives low, "_lte_", name, "_lt_", high |
| FlowSplitIntoBins.CellToStringTwo | lena/flow/split_into_bins.py:91-100 | two named coordinates are joined in order, or in reverse order with *reverse* |
| FlowSplitIntoBins.CellToStringDefault | lena/flow/split_into_bins.py:80-82 | without names, the only coordinate is called `coord0` |
| FlowSplitIntoBins.CellToStringDefaultExample | tests/flow/test_split_into_bins.py:43 | with the default format, one coordinate is written low_lte_coord0_lt_high |
| FlowSplitIntoBins.CellToStringTwoExample | tests/flow/test_split_into_bins.py:48-57 | with two names, the strings are joined as x then y, or as y then x with *reverse* |
| FlowSplitIntoBins.CellToStringCombined | lena/flow/split_into_bins.py:83-88 | the names of a combined variable's parts name its coordinates |
| FlowSplitIntoBins.CellToStringCombinedExample | lena/flow/split_into_bins.py:83-88 | the default format with names from a combined variable |
| FlowSplitIntoBins.FirstCell | lena/flow/split_into_bins.py:104-118 | descending index 0 ends at a cell, or raises IndexError |
| FlowSplitIntoBins.GetExampleBin | lena/flow/split_into_bins.py:104-118 | the loop of `get_example_bin` computes the first cell of the bins |
| FlowSplitIntoBins.FirstCellAtZero | lena/flow/split_into_bins.py:104-118 | on bins with no empty axis, a histogram and its bins give the same example bin, which exists |
| FlowSplitIntoBins.ExampleBinExample | tests/flow/test_split_into_bins.py:60-65 | the example bin of [[0, 1], [1, 1]] is the first cell, for plain bins and for a histogram |
| FlowSplitIntoBins.Reach | lena/flow/split_into_bins.py:411-424 | a walk that succeeds follows a valid path |
| FlowSplitIntoBins.ReachShaped | lena/flow/split_into_bins.py:411-424 | on bins of a known shape the walk reaches a cell exactly when every index is in range, so any underflow or overflow ends it |
| FlowSplitIntoBins.PathShape | lena/flow/split_into_bins.py:411-424 | the bins below a valid path have the remaining shape |
| FlowSplitIntoBins.FillAtShaped | lena/flow/split_into_bins.py:411-427 | an index out of range is ignored; otherwise exactly the cell at the index is replaced by its filled state, the shape is kept, and every other cell stays reachable |
| FlowSplitIntoBins.FillAt | lena/flow/split_into_bins.py:411-427 | only a cell on the path is filled, by the sequence's `fill` on its state, and the bins are the old ones with that cell replaced |
| FlowSplitIntoBins.SplitFill | lena/flow/split_into_bins.py:407-427 | the getter and the bin search must succeed; then only the cell of the value's bin is filled, with the sequence's `fill` on its state |
| FlowSplitIntoBins.WalkIndex | lena/flow/split_into_bins.py:411-424 | the walk loop of `fill` decides the same as the walk function and ends at the cell at the index |
| FlowSplitIntoBins.AsFillComputeSeq | lena/flow/split_into_bins.py:382-389 | a FillComputeSeq is kept; anything else is built into one, or raises LenaTypeError |
| FlowSplitIntoBins.SplitInit | lena/flow/split_into_bins.py:348-405 | a sequence that is not FillCompute, or an *arg_var* that is not a Variable, raises LenaTypeError; edges that do not increase raise LenaValueError; otherwise the bins are initialised from the edges with the shape of the axes |
| FlowSplitIntoBins.SplitIntoBins.constructor | lena/flow/split_into_bins.py:348-405 | the object holds the sequence, the variable, the edges and bins of matching shape, and an empty current context |
| FlowSplitIntoBins.SplitIntoBins.Fill | lena/flow/split_into_bins.py:407-427 | a value outside the bins changes nothing; otherwise exactly one cell is filled and the current context becomes the value's context; errors are passed on |
| FlowSplitIntoBins.FillKeepsShape | lena/flow/split_into_bins.py:426 | replacing the cell at a valid path by a cell keeps the bins' shape |
| FlowZip.MakeZip | lena/flow/zip.py:12-51 | no sequences, or sequences of different types, raise LenaTypeError; Source or plain Sequence branches raise LenaNotImplementedError; a Zip that is built holds FillCompute or FillRequest branches of one type |
| FlowZip.ZipFillAsSplit | lena/flow/zip.py:67-69 | filling a Zip fills every branch with the same value, exactly as a Split over the branches does |
| FlowZip.MinLen | lena/flow/zip.py:91-100 | the length of the shortest branch |
| FlowZip.RoundAt | lena/flow/zip.py:91-99 | the i-th value of each branch, in branch order |
| FlowZip.Common | lena/flow/zip.py:54 | the level-1 intersection of the contexts |
| FlowZip.Diffs | lena/flow/zip.py:55-57 | the difference of each context from the common one, in order |
| FlowZip.DiffsAsWritten | lena/flow/zip.py:55-57 | the as-written difference of each context from the common one, in order |
| FlowZip.DiffsAgree | lena/flow/zip.py:54-57 | the common context agrees with every context on its keys, so the as-written differences are the corrected ones |
| FlowZip.CreateContext | lena/flow/zip.py:53-62 | with no differences the context is the common one; otherwise `zip` holds the tuple of differences inside the common context |
| FlowZip.CreateContextAsWritten | lena/flow/zip.py:53-62 | as written, with the as-written `difference`: raises TypeError exactly when some difference is non-empty, and otherwise agrees with the corrected version |
| FlowZip.ZipRound | lena/flow/zip.py:102-108 | the data is the tuple of the branch data; a non-empty context is attached and an empty one gives bare data |
| FlowZip.Zipped | lena/flow/zip.py:85-108 | one output per round, up to the shortest branch |
| FlowZip.ZippedRounds | lena/flow/zip.py:85-108 | zipping succeeds exactly when every round up to the shortest branch does, and the i-th output is the i-th round |
| FlowZip.TakeRound | lena/flow/zip.py:88-100 | the loop over the branches stops exactly when some branch is exhausted, and otherwise collects the round |
| FlowZip.ZipYield | lena/flow/zip.py:85-108 | the loop of `_yield` computes the zipped rounds |
| FlowZip.CollectResults | lena/flow/zip.py:71-83 | one result per branch |
| FlowZip.SameContexts | lena/flow/zip.py:53-62 | equal contexts give that context, with no `zip` key, in both versions |
| FlowZip.ZipContextExample | tests/flow/test_zip.py:44-52 | zipping an empty context with {"new_context": 1} raises TypeError as written; corrected, the context is {"zip": ({}, {"new_context": 1})} |
| Variables.Typed | lena/variables/variable.py:114-123 | the context gains the type's name holding a copy of the context before it, and `type` holding the type; every other key is kept |
| Variables.MakeVariable | lena/variables/variable.py:54-123 | `name`, `getter` or `type` passed again as keywords is a TypeError; a getter that is a Variable or is not callable raises LenaTypeError; otherwise the variable keeps its name and getter, and its context is the keywords with `name`, typed when a type is given |
| Variables.HasTypeKey | lena/variables/variable.py:191 | the previous variable context counts only when it is a non-empty dictionary with a `type` |
| Variables.BaseTypes | lena/variables/variable.py:198-201 | the previous composition list if there is one (it must be a list), or else the previous type alone |
| Variables.Composed | lena/variables/variable.py:191-208 | the composition list is the previous types followed by the new variable's composition list, or by its type when it has no composition; a composition that is not a list fails the assertion |
| Variables.KeepTypes | lena/variables/variable.py:213-220 | it succeeds exactly when every composed type can be hashed; the new variable context keeps all its keys and values; a key is added only for a composed string type the new context lacks and the old one has, with the old subcontext; every such type is added |
| Variables.UpdateContext | lena/variables/variable.py:176-220 | "variable" holds the new variable context except "compose"; every other key is kept, and no key is added but "variable"; without a previous variable it is simply set; after a typed variable, a "compose" that is not a list fails the assertion, and otherwise the update succeeds exactly when every composed type can be hashed, with "compose" set to the composed types and the old typed subcontexts kept as `KeepTypes` states |
| Variables.UpdateWith | lena/variables/variable.py:176-220 | with either rule for composed types, only "variable" changes in the context; without a previous variable it is the new variable context |
| Variables.UpdateContextAsWritten | lena/variables/variable.py:176-220 | as written: it agrees with the corrected update whenever the new variable context has no "compose" list, and changes only "variable" |
| Variables.ComposedAsWritten | lena/variables/variable.py:191-208 | as written: a "compose" that is not a list fails the assertion; without a new "compose" list it agrees with the corrected rule; with one, a string type adds its characters |
| Variables.ComposeTwoTypes | lena/variables/variable.py:191-208 | composing two typed variables records both types, in order, under `compose` |
| Variables.ComposeExtendExample | lena/variables/variable.py:202-204 | a composition list after a type "ab" gives ["t", "a", "b"] as written, and ["t", "s", "ab"] corrected |
| Variables.ComposeExtendAsWritten | lena/variables/variable.py:204 | `extend(cur_type)` with a string type adds its characters |
| Variables.ComposeExtendFixed | lena/variables/variable.py:202-204 | the corrected update adds the new variable's composition list |
| Variables.Call | lena/variables/variable.py:125-146 | the data part becomes the getter's result and the context is updated with the variable's context; it fails exactly when one of the two does |
| Variables.GetAll | lena/variables/variable.py:277 | every getter applied to the value, in order; this succeeds exactly when each getter does |
| Variables.NameStrings | lena/variables/variable.py:281-282 | the names of the variables, which must all be strings |
| Variables.CombineContext | lena/variables/variable.py:290-298 | the keywords plus `dim`, the number of variables, and `combine`, the tuple of their contexts |
| Variables.Combine | lena/variables/variable.py:246-299 | no arguments, or one that is not a Variable, raise LenaTypeError; the getter gives the tuple of the getters' results; the name is the given one, or the names joined with "_" |
| Variables.CombineDim | lena/variables/variable.py:291-293 | a combined variable's context holds `dim`, the number of its variables |
| Variables.ComposeGetSnoc | lena/variables/variable.py:336-339 | composing one more variable applies its getter last |
| Variables.ComposeGet | lena/variables/variable.py:336-339 | no variables leave the value as it is; one variable applies its getter |
| Variables.Compose | lena/variables/variable.py:309-366 | an argument that is not a Variable, no arguments, or a `getter` keyword raise LenaTypeError; the getter applies the getters in order; the name is the given one or the last variable's; the keywords are kept in the context |
| Variables.ComposeContexts | lena/variables/variable.py:342-346 | only "variable" is added to the context, which holds the last variable's context except "compose" |
| Variables.ComposeGetTwo | lena/variables/variable.py:336-339 | composing two variables applies the first getter and then the second |
| Variables.ComposeTwo | lena/variables/variable.py:344-366 | composing two variables gives the context that updating the first context with the second gives, and a getter that applies the first getter and then the second |
| Variables.ExampleVariables | lena/variables/variable.py:16-25 | the example's variables `x` and `positron` are built with their typed contexts |
| Variables.ExampleKeep | lena/variables/variable.py:16-38 | in the example the positron's type subcontext is carried over to the composed context |
| Variables.ExampleUpdate | lena/variables/variable.py:16-38 | updating the positron's context with x's gives the composed context of the example |
| Variables.ComposeExample | lena/variables/variable.py:26-38 | `Compose(positron, x)` has the context of the example |
| Variables.ComposeExampleGetter | lena/variables/variable.py:26-28 | `Compose(positron, x)` takes 1.05 from the example's data |
| HistFunctions.PairsIncreasingSorted | lena/structures/hist_functions.py:26-27 | comparing neighbours in `zip(arr, arr[1:])` is the same as the whole list being strictly increasing |
| HistFunctions.CheckIncreasing1d | lena/structures/hist_functions.py:22-31 | succeeds exactly when the axis has at least two edges and increases strictly; otherwise LenaValueError |
| HistFunctions.CheckAxes | lena/structures/hist_functions.py:47-53 | succeeds exactly when every axis is valid; otherwise LenaValueError |
| HistFunctions.CheckEdgesIncreasing | lena/structures/hist_functions.py:34-53 | succeeds exactly when the edges are non-empty and every axis is valid; otherwise LenaValueError |
| HistFunctions.Unify1Md | lena/structures/hist_functions.py:392-403 | the bins are returned unchanged; one-dimensional edges become a single axis and nested edges stay as they are, so the edges are valid exactly when every resulting axis is |
| HistFunctions.BoundsOf | lena/structures/hist_functions.py:71 | the low and high edge of bin *i* of an axis, or IndexError |
| HistFunctions.BoundsAll | lena/structures/hist_functions.py:73-74 | the low and high edge on every axis named by the index, in order; an index out of range raises IndexError |
| HistFunctions.GetBinEdges | lena/structures/hist_functions.py:56-74 | on one axis the pair (edges[i], edges[i+1]), taking the first entry of an index list; on several axes one pair per entry of the index; a scalar index on several axes is a TypeError |
| HistFunctions.BinEdgesIncrease | lena/structures/hist_functions.py:56-74 | on valid edges the low edge of every pair lies below its high edge |
| HistFunctions.GetBinOnIndex | lena/structures/hist_functions.py:77-107 | the loop of `get_bin_on_index` computes the bins at the index, a number being an index of length one |
| HistFunctions.BinOnIndex | lena/structures/hist_functions.py:77-107 | the only errors are LenaIndexError for an entry out of range and TypeError for indexing a cell |
| HistFunctions.IndexInShape | lena/structures/hist_functions.py:77-107 | on bins of a known shape the lookup succeeds exactly when each entry is within the axis (negative entries count from the end); otherwise LenaIndexError; what it finds has the remaining shape |
| HistFunctions.Sizes | lena/structures/hist_functions.py:281-322 | the number of bins on each axis, one less than its edges |
| HistFunctions.InitAxes | lena/structures/hist_functions.py:314-322 | nested edges give bins of the axes' shape, every cell holding the value |
| HistFunctions.InitBins | lena/structures/hist_functions.py:281-322 | empty edges raise IndexError; otherwise the bins have the shape of the axes and every cell holds the value |
| HistFunctions.IterBinsMembers | lena/structures/hist_functions.py:348-361 | `iter_bins` yields (index, value) exactly when `get_bin_on_index` finds the cell holding that value at that non-negative index |
| HistFunctions.IterBins | lena/structures/hist_functions.py:348-361 | a cell yields itself at the empty index; bins yield indices that start with the position of a sub-bin |
| HistFunctions.IterBinsOrdered | lena/structures/hist_functions.py:348-361 | the indices come in strictly increasing lexicographic order, so each cell is yielded once |
| HistFunctions.CountAtMost | lena/structures/hist_functions.py:110-178 | the number of edges at or below the value |
| HistFunctions.CountAtMostPrefix | lena/structures/hist_functions.py:110-178 | on increasing edges, those at or below the value come first |
| HistFunctions.BinOnValue1d | lena/structures/hist_functions.py:110-178 | the bin index lies between -1 (underflow) and len(arr)-1 (overflow), its low edge is at or below the value and its high edge above it |
| HistFunctions.BinOnValue1dUnique | lena/structures/hist_functions.py:110-178 | only one index has those bounds, so the answer is determined |
| HistFunctions.GetBinOnValue1d | lena/structures/hist_functions.py:110-178 | the interpolation search of `get_bin_on_value_1d` finds that index; empty edges raise IndexError |
| HistFunctions.BinInside | lena/structures/hist_functions.py:110-178 | the index is a real bin exactly when the value lies within the first and last edge |
| HistFunctions.BinOnValueAxis | lena/structures/hist_functions.py:110-178 | a number gets its bin on an axis; empty edges raise IndexError and a value that is not a number TypeError |
| HistFunctions.BinsOnAxes | lena/structures/hist_functions.py:227-230 | the bin of each coordinate on its own axis, in order; this succeeds exactly when every axis does |
| HistFunctions.BinsOnAxesFirstFailure | lena/structures/hist_functions.py:227-230 | the first axis that fails gives the error |
| HistFunctions.BinOnValue | lena/structures/hist_functions.py:181-230 | a point of the wrong length raises LenaValueError; a number on one axis gives a list of one bin; a point on several axes gives one bin per axis |
| HistFunctions.GetBinOnValue | lena/structures/hist_functions.py:181-230 | the loop of `get_bin_on_value` computes that list |
| HistFunctions.WidthProductPositive | lena/structures/hist_functions.py:336-342 | increasing edges give every bin a positive volume |
| HistFunctions.Volume | lena/structures/hist_functions.py:336-342 | the product of the bin's widths on every axis; an index out of range raises IndexError |
| HistFunctions.CellIntegral | lena/structures/hist_functions.py:343 | a cell's share of the integral is its volume times its content |
| HistFunctions.IntegralOf | lena/structures/hist_functions.py:325-345 | an index out of range raises IndexError |
| HistFunctions.IntegralOfStep | lena/structures/hist_functions.py:332-345 | the integral is the first cell's share plus the rest |
| HistFunctions.IntegralOfAppend | lena/structures/hist_functions.py:325-345 | the integral is additive over a split of the cells |
| HistFunctions.IntegralOfZero | lena/structures/hist_functions.py:325-345 | empty cells give a zero integral |
| HistFunctions.IntegralOfNonNegative | lena/structures/hist_functions.py:325-345 | non-negative contents on increasing edges give a non-negative integral |
| HistFunctions.CellIntegralNonNegative | lena/structures/hist_functions.py:343 | a non-negative content on increasing edges gives a non-negative share |
| HistFunctions.Integral | lena/structures/hist_functions.py:325-345 | the loop of `integral` sums the shares of the cells that `iter_bins` yields |
| Histograms.Replace | lena/structures/histogram.py:195-211 | replacing the bins at a non-empty path keeps the number of sub-bins |
| Histograms.ReplaceSame | lena/structures/histogram.py:195-211 | putting back what is at a path changes nothing |
| Histograms.ExtendPath | lena/structures/histogram.py:195-201 | one more step of the walk goes into the k-th sub-bins, and replacing there is replacing the k-th item of the sub-bins |
| Histograms.ReplaceThenAt | lena/structures/histogram.py:211 | the replaced bins are found where they were put |
| Histograms.ReplaceElsewhere | lena/structures/histogram.py:211 | any other path of the same length leads where it led before |
| Histograms.ReplaceKeepsShape | lena/structures/histogram.py:211 | replacing a cell by a cell keeps the shape of the bins |
| Histograms.InRangePath | lena/structures/histogram.py:195-211 | an index in range leads to a cell |
| Histograms.Walk | lena/structures/histogram.py:195-213 | the walk keeps the form of the bins; adding to something that is not a cell is a TypeError |
| Histograms.WalkShape | lena/structures/histogram.py:195-213 | an underflow or overflow on any axis leaves the bins unchanged; otherwise the weight is added to the one cell at the index |
| Histograms.WalkFrom | lena/structures/histogram.py:206 | an empty index list raises IndexError |
| Histograms.FillBins | lena/structures/histogram.py:192-213 | a failing bin search is re-raised; otherwise the bins are walked at the indices found |
| Histograms.LiftSame | lena/structures/histogram.py:197-204 | where the walk stops early, the whole bins are kept |
| Histograms.LiftStep | lena/structures/histogram.py:196-201 | one step of the walk goes from the sub-bins at a path to their item at the next index |
| Histograms.WalkBins | lena/structures/histogram.py:195-213 | the loop of `fill` computes the walk |
| Histograms.LayoutAsWritten | lena/structures/histogram.py:113-139 | one-dimensional edges give one range and len(edges)-1 bins; a single nested axis takes the one-dimensional branch, so its range is the pair (axis, axis) and it has 0 bins |
| Histograms.LayoutOf | lena/structures/histogram.py:113-139 | the dimension is the number of axes, and each axis has the range (first edge, last edge) and one bin fewer than its edges |
| Histograms.InitAsWritten | lena/structures/histogram.py:49-147 | invalid edges raise LenaValueError; without bins, the bins are initialised from the edges and the layout is that of the code as written |
| Histograms.Init | lena/structures/histogram.py:49-147 | invalid edges raise LenaValueError; without bins, the bins have the axes' shape and hold the initial value; given bins are accepted exactly when their first dimension has as many items as the first axis has bins |
| Histograms.InitAcceptsOwnBins | lena/structures/histogram.py:117-132 | a histogram accepts the bins it makes for itself |
| Histograms.SingleNestedAxisExample | lena/structures/histogram.py:113-139 | edges [[0, 1, 2]] make two bins but a layout of 0 bins as written, so those bins are then rejected; corrected, they are accepted and the layout has 2 bins in the range (0, 2) |
| Histograms.HistContext | lena/structures/hist_functions.py:374-390 | the context gains `histogram` holding exactly the dimension, the ranges and the numbers of bins; every other key is kept |
| Histograms.ScaleOf | lena/structures/histogram.py:164-168 | a stored scale is returned unless *recompute* is set; otherwise the integral of the bins |
| Histograms.MapCells | lena/structures/histogram.py:178-179 | `md_map` keeps the form of the bins |
| Histograms.Histogram.constructor | lena/structures/histogram.py:49-147 | the histogram holds the edges, the bins and the layout that the initialisation gives, no scale and an empty context |
| Histograms.Histogram.New | lena/structures/histogram.py:49-147 | the histogram is made exactly when the initialisation succeeds, with its error otherwise; a new histogram holds the edges and the bins, no scale and an empty context |
| Histograms.Histogram.Fill | lena/structures/histogram.py:185-213 | the current context becomes the value's context; the bins become the filled bins, or stay as they were on an error, which is passed on |
| Histograms.Histogram.Compute | lena/structures/histogram.py:215-228 | the bins are unchanged; the result context is the current context with the histogram's layout, and the current context is reset |
| Histograms.Histogram.Scale | lena/structures/histogram.py:149-168 | the scale is the stored one or the integral; it is never stored |
| Histograms.Histogram.Rescale | lena/structures/histogram.py:169-183 | a zero scale raises LenaValueError; otherwise a new histogram with the same edges, every cell multiplied by other/scale, and the scale *other*; this one is unchanged |
| Histograms.FillOneCell | lena/structures/histogram.py:185-213 | an index out of range leaves the bins unchanged; otherwise exactly the cell at the index gains the weight, the shape is kept and every other cell is unchanged |
| Histograms.PointInRange | lena/structures/hist_functions.py:181-230 | a point falls in a bin exactly when every coordinate lies within its axis |
| Histograms.FillPoint | lena/structures/histogram.py:185-213 | filling a point outside the edges leaves the bins unchanged, and filling a point inside adds the weight to its cell |
| Histograms.ExampleBin | lena/structures/histogram.py:21-22 | the point [0, 1] falls in bin (0, 1) of two axes [0, 1, 2] |
| Histograms.ExampleInit | lena/structures/histogram.py:21 | the histogram of two axes [0, 1, 2] starts with 2x2 empty bins |
| Histograms.ExampleWalk | lena/structures/histogram.py:22-24 | filling bin (0, 1) of those bins gives [[0, 1], [0, 0]] |
| Histograms.FillExample | lena/structures/histogram.py:20-24 | the histogram of the example holds [[0, 1], [0, 0]] after `fill([0, 1])` |
| IncludeExclude.SplitKey | lena/context/include_exclude_tree.py:25-44 | "" is the root key [""]; any other key is split at dots, and an empty subkey raises LenaValueError; the subkeys joined with dots give the key back |
| IncludeExclude.StartsWithSeq | lena/context/include_exclude_tree.py:47-59 | true exactly when the first sequence is a prefix of the second |
| IncludeExclude.Group | lena/context/include_exclude_tree.py:4-22 | the groups are exactly the first subkeys of the keys |
| IncludeExclude.GroupComplete | lena/context/include_exclude_tree.py:16-20 | every key's tail is listed under its first subkey |
| IncludeExclude.GroupSound | lena/context/include_exclude_tree.py:16-20 | every listed tail, after its prefix, is one of the keys |
| IncludeExclude.Get | lena/context/include_exclude_tree.py:97-129 | the result takes only keys of the context, with their values unless they are subtrees; a key that is neither listed nor a subtree is kept exactly when the tree includes by default, and a listed key exactly when it does not |
| IncludeExclude.GetContained | lena/context/include_exclude_tree.py:97-129 | what is selected is contained in the context |
| IncludeExclude.GetIdempotent | lena/context/include_exclude_tree.py:97-129 | selecting twice selects nothing more |
| IncludeExclude.SubKeysShorter | lena/context/include_exclude_tree.py:194-200 | the keys passed to a subtree are shorter, so the recursion ends |
| IncludeExclude.MakeTree | lena/context/include_exclude_tree.py:142-204 | the tree includes by default as asked, and improperly nested keys raise LenaValueError |
| IncludeExclude.Assemble | lena/context/include_exclude_tree.py:176-204 | the tree of the proper keys and the subtrees; a failing subtree fails |
| IncludeExclude.KeyStrings | lena/context/include_exclude_tree.py:209-213 | a single key becomes a one-element tuple |
| IncludeExclude.SplitAll | lena/context/include_exclude_tree.py:222-223 | every non-root key split; the first improper one raises LenaValueError |
| IncludeExclude.MakeIncludeExcludeTree | lena/context/include_exclude_tree.py:207-228 | the root "" must be in exactly one of includes and excludes, else LenaValueError; the tree includes by default exactly when "" is among the includes |
| IncludeExclude.GetExample | tests/context/test_include_exclude_tree.py:89-92 | including everything except "a", and "c.d" but not the rest of "c", selects {"b": 2, "c": {"d": 3}} |
| IncludeExclude.GetTrivialTrees | lena/context/include_exclude_tree.py:97-129 | an empty tree that includes by default keeps the whole context, and one that excludes keeps nothing |
| IncludeExclude.MakeTreeStrayKey | lena/context/include_exclude_tree.py:152-164 | an include with no matching exclude one level up (or the reverse) raises LenaValueError |
| IncludeExclude.GroupOne | lena/context/include_exclude_tree.py:4-22 | one key gives one group holding its tail |
| IncludeExclude.ExampleTree | tests/context/test_include_exclude_tree.py:118-122 | includes ("", "c.d") and exclude "c" give a tree including by default, with the subtree "c" that includes only "d" |
| IncludeExclude.TreeOfSplit | lena/context/include_exclude_tree.py:215-227 | with the root in exactly one set, the tree is built from the split keys |
| IncludeExclude.ExampleTreeGet | tests/context/test_include_exclude_tree.py:118-123 | that tree selects {"a": 1, "b": 2, "c": {"d": 3}} from {"a": 1, "b": 2, "c": {"d": 3, "e": 0}} |
| MathElements.AddInPlace | lena/math/elements.py:83 | `+=` adds numbers, giving a float when either is a float, and concatenates lists; anything else is a TypeError |
| MathElements.SumOfInts | lena/math/elements.py:74-95 | filling integers gives their total plus the start |
| MathElements.SumOfLists | lena/math/elements.py:74-95 | filling lists into a list gives their concatenation |
| MathElements.Output | lena/math/elements.py:92-95 | an empty context yields the bare result; otherwise the result paired with the context |
| MathElements.Sum.constructor | lena/math/elements.py:66-72 | a new Sum is reset: its sum is the start and its context empty |
| MathElements.Sum.Fill | lena/math/elements.py:74-84 | the data part is added to the sum and the context becomes the value's; when the addition fails nothing changes |
| MathElements.Sum.Compute | lena/math/elements.py:86-95 | the sum of the start and everything filled since the reset, bare or with the last context |
| MathElements.Sum.Reset | lena/math/elements.py:97-103 | the sum is the start again and the context is empty |
| MathElements.Divide | lena/math/elements.py:47 | `sum / float(count)` for a number; anything else is a TypeError |
| MathElements.Mean.constructor | lena/math/elements.py:11-18 | a new Mean is reset: its sum is the start, its count zero and its context empty |
| MathElements.Mean.Fill | lena/math/elements.py:20-31 | the data part is added, the count grows by one and the context becomes the value's; when the addition fails nothing changes |
| MathElements.Mean.Compute | lena/math/elements.py:33-51 | no fills raise LenaRuntimeError; otherwise the sum divided by the number of fills, bare or with the last context |
| MathElements.Mean.Reset | lena/math/elements.py:53-60 | the sum is the start again, the count zero and the context empty |
| MathElements.SumExample | lena/math/elements.py:74-95 | filling 1, 2 and (3, context) gives (6, context) |
| MathElements.MeanExample | lena/math/elements.py:20-51 | filling 1, 2 and (3, context) gives (2.0, context), and nothing filled raises LenaRuntimeError |
| MathMeshes.FlattenItems | lena/math/meshes.py:27-32 | only leaves are yielded |
| MathMeshes.Flatten | lena/math/meshes.py:7-32 | a list or tuple flattens to its leaves, depth first; it fails, with TypeError, exactly on values that are neither lists, tuples nor strings (a dict among them, see Left out) |
| MathMeshes.FlattenAppend | lena/math/meshes.py:27-32 | flattening a concatenation flattens each part |
| MathMeshes.FlattenFlat | lena/math/meshes.py:17-19 | a list without nested lists flattens to itself |
| MathMeshes.FlattenIdempotent | lena/math/meshes.py:7-32 | flattening the leaves again changes nothing |
| MathMeshes.FlattenExample | lena/math/meshes.py:20-22 | [[1, 2, 3, [4]], 5, [[6]], 7] flattens to 1, ..., 7 |
| MathMeshes.MapEach | lena/math/meshes.py:93 | `f` applied to every item in order; the first error is raised |
| MathMeshes.MdMap | lena/math/meshes.py:35-93 | as intended: a value that is not a list raises LenaTypeError (as written a NameError, see `MdMapAsWritten`); a result is a list of the same length |
| MathMeshes.MdMapFrom | lena/math/meshes.py:89-90 | each nested item mapped recursively, in order |
| MathMeshes.MdMapIdentity | lena/math/meshes.py:35-93 | mapping the identity gives the array back, so the shape is kept |
| MathMeshes.MdMapCompose | lena/math/meshes.py:35-93 | mapping *f* and then *g* is mapping their composition |
| MathMeshes.MdMapExamples | lena/math/meshes.py:48-54 | `abs` over [-1, 1, 0] and over [[0, -1], [2, 3]]; an empty list gives []; a tuple raises LenaTypeError as intended and NameError as written |
| MathMeshes.MdMapAsWritten | lena/math/meshes.py:74-93 | as written: a value that is not a list raises NameError, because `lena` is not imported in the module; a result is a list of the same length |
| MathMeshes.MdMapAsWrittenFrom | lena/math/meshes.py:89-90 | as written, one result per remaining nested item |
| MathMeshes.MdMapAsWrittenRenames | lena/math/meshes.py:74-93 | for a function that raises neither LenaTypeError nor NameError, the code as written computes what the corrected `md_map` computes, with its LenaTypeError turned into NameError |
| MathMeshes.MdMapAsWrittenFromRenames | lena/math/meshes.py:89-90 | the same correspondence for the nested items from a position on |
| MathUtils.Len | lena/math/utils.py:31-36 | only strings, lists, tuples and dicts have a length |
| MathUtils.Less | lena/math/utils.py:39-44 | `a_min > a_max` and the comparisons of `min`/`max`: numbers compare by value, strings character by character, lists with lists and tuples with tuples item by item (the first unequal items decide, and a list that runs out first is smaller); any other pair is a TypeError |
| MathUtils.SeqLessFrom | lena/math/utils.py:39-44 | comparing two lists or tuples from a position on fails only with TypeError |
| MathUtils.SeqLessIrreflexive | lena/math/utils.py:39 | no list or tuple is smaller than itself from any position |
| MathUtils.StrLessIrreflexive | lena/math/utils.py:39 | no string is smaller than itself |
| MathUtils.LessIrreflexive | lena/math/utils.py:39 | `x < x` is False for every number, string, list and tuple |
| MathUtils.SeqLessPrefix | lena/math/utils.py:39 | a list is smaller than every longer list that starts with it, and not smaller than itself |
| MathUtils.Clip | lena/math/utils.py:7-44 | a value without a length raises LenaTypeError, a length other than 2 LenaValueError, and a_min > a_max LenaValueError; the result is the value or an edge, lies within the interval, and a value inside the interval is returned unchanged |
| MathUtils.ClipIdempotent | lena/math/utils.py:44 | clipping a clipped value changes nothing |
| MathUtils.ClipTwiceEqualEdges | lena/math/utils.py:44 | with equal edges of different types, clipping twice gives the other edge |
| MathUtils.ClipOutside | lena/math/utils.py:44 | a value below the interval becomes its low edge, one above it its high edge |
| MathUtils.ClipExamples | lena/math/utils.py:15-21 | the interval (0, 1) clips -1 to 0 and 2 to 1 and keeps 0.5; (1, 0), a three-element list and a number are rejected |
| MathUtils.ClipLists | lena/math/utils.py:37-44 | `clip([1], ([0], [2]))` compares the lists item by item and returns [1] |
| FlowCompose.MakeCompose | lena/flow/compose.py:21-28 | built exactly when there are arguments and every one is callable, keeping them in order; otherwise LenaTypeError |
| FlowCompose.Funcs | lena/flow/compose.py:28 | the functions of the arguments, in order |
| FlowCompose.Call | lena/flow/compose.py:30-37 | the loop of `__call__` applies the functions left to right, stopping at the first error |
| FlowCompose.ApplyAllAppend | lena/flow/compose.py:30-37 | applying two lists of functions one after the other is applying their concatenation |
| FlowCompose.ApplyOne | tests/flow/test_functions.py:26-28 | a composition of one function behaves as that function |
| FlowCompose.ComposeExample | tests/flow/test_functions.py:9-36 | add1 then mul2 on 1 gives 4; no arguments, or an argument that is not callable, raise LenaTypeError |
| FlowCompose.MakeContextEl | lena/flow/data_context.py:28-34 | `Context(*seq)` is the composition of its functions, so no functions raise LenaTypeError |
| FlowCompose.ContextCall | lena/flow/data_context.py:36-38 | the result is a pair of the unchanged data and the composition applied to the context; it fails exactly when the composition does |
| FlowCompose.ContextCallPair | lena/flow/data_context.py:36-38 | when the functions return a dictionary, the output is a value with context whose data is the input's data |
| FlowCompose.ContextExample | tests/flow/test_data_context.py:9-19 | inserting "a" and then "b" under `val` into (None, {}) gives (None, {"val": "b"}) |
| StructuresDictTable.Length | lena/structures/dict_table.py:194-198 | the number of rows, zero exactly for an empty table |
| StructuresDictTable.LookupEach | lena/structures/dict_table.py:75-79 | one lookup per key, in order |
| StructuresDictTable.LookupEachAll | lena/structures/dict_table.py:75-79 | the lookups succeed exactly when each one does, and then the i-th value is the i-th key's |
| StructuresDictTable.TupleValues | lena/structures/dict_table.py:75-79 | one value per key of a tuple key |
| StructuresDictTable.TupleValuesAll | lena/structures/dict_table.py:75-79 | the values are found exactly when `get_recursively` finds every key, and the i-th value is the i-th key's |
| StructuresDictTable.RowResults | lena/structures/dict_table.py:86-88 | the lookup of the key in every row, in row order |
| StructuresDictTable.Keep | lena/structures/dict_table.py:86-94 | rows lacking the key are skipped; any other error is raised |
| StructuresDictTable.ColumnValues | lena/structures/dict_table.py:86-94 | at most one value per row; a missing key is never the error |
| StructuresDictTable.FilterColumns | lena/structures/dict_table.py:41-109 | no values raise LenaKeyError, one value is returned alone, and several are returned as a list in row order |
| StructuresDictTable.KeepSources | lena/structures/dict_table.py:86-94 | each kept value comes from a row, in increasing row order, and every row left out lacked the key |
| StructuresDictTable.KeepLast | lena/structures/dict_table.py:86-94 | the last row adds its value when it has the key, and nothing when it lacks it |
| StructuresDictTable.ColumnSources | lena/structures/dict_table.py:86-94 | each column value comes from a row that has the key, in row order, and every other row lacks it |
| StructuresDictTable.ColumnSkips | lena/structures/dict_table.py:89-92 | a row that lacks the key does not change the column |
| StructuresDictTable.KeepAppend | lena/structures/dict_table.py:86-94 | the values of two runs of rows are those of each run, one after the other |
| StructuresDictTable.ColumnAppend | lena/structures/dict_table.py:86-94 | the column of two tables' rows is the first column followed by the second |
| StructuresDictTable.GetTupleRecursively | lena/structures/dict_table.py:75-79 | the loop of `get_tuple_recursively` computes the values of the keys |
| StructuresDictTable.FilterColumnsOf | lena/structures/dict_table.py:41-109 | the loop of `filter_columns` computes the column selection |
| StructuresDictTable.CollectColumn | lena/structures/dict_table.py:86-94 | the loop over the rows computes the column values |
| StructuresDictTable.RowsWith | lena/structures/dict_table.py:127-129 | at most the rows of the table; it succeeds exactly when `contains` succeeds on every row |
| StructuresDictTable.RowsWithSound | lena/structures/dict_table.py:127-129 | only rows of the table that contain the item are selected |
| StructuresDictTable.RowsWithSnoc | lena/structures/dict_table.py:127-129 | one more row is added to the selection exactly when it contains the item |
| StructuresDictTable.RowsWithAll | lena/structures/dict_table.py:127-129 | every row that contains the item is selected |
| StructuresDictTable.FilterRows | lena/structures/dict_table.py:111-142 | no rows raise LenaKeyError, one row is returned as that dictionary, and several as a table of them in row order |
| StructuresDictTable.FilterRowsOf | lena/structures/dict_table.py:111-142 | the loop of `filter_rows` computes the row selection |
| StructuresDictTable.SelectRows | lena/structures/dict_table.py:125-130 | the loop over the rows computes the selected rows |
| StructuresDictTable.GetItem | lena/structures/dict_table.py:144-176 | a tuple key selects columns; any other key selects columns and falls back to rows when no row has the key |
| StructuresDictTable.PlainKey | lena/structures/dict_table.py:86-88 | a key without a dot looks up that key of the row alone |
| StructuresDictTable.GetItemExample | lena/structures/dict_table.py:160-171 | on rows with means 3 and 2.5, `dt["mean"]` is the column [3, 2.5] |
| StructuresDictTable.DottedItem | lena/structures/dict_table.py:166-176 | "detector.FD" is not a column of a row whose detector is a string, and the row contains it exactly when its detector is "FD" |
| StructuresDictTable.SelectRowExample | lena/structures/dict_table.py:22-28 | `dt["detector.FD"]` gives the first row of the example |
| StructuresDictTable.NoColumn | lena/structures/dict_table.py:96-102 | when no row has the key, `filter_columns` raises LenaKeyError |
| StructuresDictTable.KeepAllMissing | lena/structures/dict_table.py:86-96 | when every row lacks the key no value is kept |
| StructuresDictTable.DictTable.constructor | lena/structures/dict_table.py:225-228 | a new table has no rows and no contexts |
| StructuresDictTable.DictTable.Fill | lena/structures/dict_table.py:230-244 | data that is not a dictionary raises LenaValueError and changes nothing; otherwise the data updated with the context is appended to the rows, and the context to the contexts |
| StructuresDictTable.DictTable.Compute | lena/structures/dict_table.py:246-256 | the table of the rows, with the intersection of all filled contexts, which is contained in every context and in every row |
| StructuresDictTable.DictTable.Reset | lena/structures/dict_table.py:258-260 | no rows and no contexts |
| StructuresDictTable.ResetComputeExample | tests/structures/test_dict_table.py:67-73 | after `reset`, `compute` yields an empty table with an empty context |
| StructuresGraph.RunLength | lena/structures/graph.py:104 | the run of characters other than commas and whitespace that starts the string |
| StructuresGraph.Tokens | lena/structures/graph.py:104 | `re.findall(r'[^,\s]+', s)` gives non-empty names without commas or whitespace |
| StructuresGraph.TokensSkip | lena/structures/graph.py:104 | separators in front are skipped |
| StructuresGraph.TokensToken | lena/structures/graph.py:104 | a name followed by a separator or the end is the first name found |
| StructuresGraph.TokensJoin | lena/structures/graph.py:100-104 | names joined by separators are found back exactly, so a string and the tuple of its names give the same fields |
| StructuresGraph.ErrorsUpTo | lena/structures/graph.py:276-289 | the error fields among the first names, with their indices |
| StructuresGraph.LastCoordBefore | lena/structures/graph.py:279-285 | the index of the last coordinate field seen, or 0 |
| StructuresGraph.ParseError | lena/structures/graph.py:294-311 | one error field parsed; anything but exactly one matching coordinate raises LenaValueError |
| StructuresGraph.ParseErrorIs | lena/structures/graph.py:294-311 | an error field parses exactly when one coordinate matches its name, as the whole name or as the name and "_"; the result holds that coordinate, the rest of the name and the field's index |
| StructuresGraph.ParseList | lena/structures/graph.py:292-313 | one result per error field, in order; the first failure is raised |
| StructuresGraph.ParseListAll | lena/structures/graph.py:292-313 | the list parses exactly when every field parses, and the k-th result is the k-th field's |
| StructuresGraph.ParseErrors | lena/structures/graph.py:270-313 | at most one result per field; errors are LenaValueError |
| StructuresGraph.AllErrorsFail | lena/structures/graph.py:291-304 | names that are all error fields have no coordinate to match, so they are rejected |
| StructuresGraph.ParsedAt | lena/structures/graph.py:270-313 | after a successful parse the coordinates come first and the error fields after them, and the k-th result is the parse of the k-th error field against the coordinates |
| StructuresGraph.FirstIsCoord | lena/structures/graph.py:270-313 | when the error fields parse, the first field is a coordinate |
| StructuresGraph.ParsedShape | lena/structures/graph.py:270-313 | a successful parse leaves at least one coordinate and describes the fields |
| StructuresGraph.ParseSucceeds | lena/structures/graph.py:270-313 | fields that have that description parse to it |
| StructuresGraph.ParseErrorsIff | lena/structures/graph.py:270-313 | the parse gives a list exactly when the fields are coordinates followed by error fields, each matching exactly one coordinate |
| StructuresGraph.CollectErrors | lena/structures/graph.py:273-289 | the loop over the fields accepts exactly when no coordinate follows an error field, and collects the error fields and the last coordinate's index |
| StructuresGraph.MatchCoords | lena/structures/graph.py:295-300 | the loop over the coordinates collects exactly the coordinates that match, with the tail of the last |
| StructuresGraph.ParseErrorNames | lena/structures/graph.py:270-313 | the loops of `_parse_error_names` compute the parse |
| StructuresGraph.ParseListFails | lena/structures/graph.py:301-309 | an error field with no matching coordinate, or several, fails the whole parse |
| StructuresGraph.UniqueCard | lena/structures/graph.py:120-123 | `len(set(names)) == len(names)` exactly when no name repeats |
| StructuresGraph.NamesOf | lena/structures/graph.py:100-113 | a string is split into names, a tuple is kept, and anything else raises LenaTypeError |
| StructuresGraph.MakeGraph | lena/structures/graph.py:16-145 | no coordinates, or coordinate lists of different lengths, raise LenaValueError; a graph keeps its coordinates and scale |
| StructuresGraph.GraphOf | lena/structures/graph.py:115-145 | built exactly when there are as many names as coordinates, no name repeats and the error fields parse; its dimension is the number of fields that are not errors |
| StructuresGraph.MadeGraphValid | lena/structures/graph.py:136-145 | a graph has at least one coordinate field, its coordinate fields come first and its error fields after them |
| StructuresGraph.NamesStrAsTuple | lena/structures/graph.py:100-104 | names given as a string with separators build the same graph as the tuple of those names |
| StructuresGraph.NewGraph | lena/structures/graph.py:16-145 | the loops of `__init__` build the graph |
| StructuresGraph.GraphWithNames | lena/structures/graph.py:115-145 | the checks on the field names and the parse |
| StructuresGraph.MakeGraphNames | lena/structures/graph.py:98-145 | with valid coordinates, the graph is built from the field names |
| StructuresGraph.Points | lena/structures/graph.py:182-185 | one tuple per point, with one value per coordinate |
| StructuresGraph.Column | lena/structures/graph.py:182-185 | the i-th value of every point |
| StructuresGraph.PointsTranspose | lena/structures/graph.py:182-185 | the points give back every coordinate list |
| StructuresGraph.ErrIndices | lena/structures/graph.py:173-180 | indices of error fields, after the coordinates |
| StructuresGraph.ErrIndicesIncreasing | lena/structures/graph.py:173-180 | the error indices are increasing |
| StructuresGraph.ErrIndicesMembers | lena/structures/graph.py:173-180 | an index is returned exactly when it is an error field of the coordinate |
| StructuresGraph.GetErrIndices | lena/structures/graph.py:173-180 | the loop of `_get_err_indices` computes those indices |
| StructuresGraph.Scale | lena/structures/graph.py:192-258 | which action `scale(other)` takes: without *other* the stored scale; with it, a zero or unknown scale raises LenaValueError, and otherwise the action rescales to *other* (the arithmetic is `ScaleTo`) |
| StructuresGraph.MapNumbers | lena/structures/graph.py:258-264 | mapping every value of an array: it succeeds exactly when every value is a number, gives one float per value, and otherwise raises TypeError |
| StructuresGraph.RescaleCoords | lena/structures/graph.py:258-264 | the arrays at the listed indices are multiplied, every other array is kept; it fails exactly when a listed array holds a non-number |
| StructuresGraph.ScaleTo | lena/structures/graph.py:222-268 | a zero or unknown scale raises LenaValueError and a non-numeric *other* or scale TypeError; otherwise the last coordinate and its errors are multiplied by other/scale, every other field and attribute is kept, and the scale becomes *other* |
| StructuresGraph.ScaleToThenGet | lena/structures/graph.py:222-268 | after rescaling, `scale()` returns the new scale |
| StructuresGraph.MapNumbersInverse | lena/structures/graph.py:258-264 | mapping by a function and then by its inverse gives every number back |
| StructuresGraph.ScaleToAndBack | lena/structures/graph.py:222-268 | rescaling to a non-zero scale and back gives the old scale and every coordinate back with the same value |
| StructuresGraph.RescaledFields | lena/structures/graph.py:227-263 | the fields rescaled are exactly the last coordinate and its errors |
| StructuresGraph.ParseExample | lena/structures/graph.py:270-313 | "E, time, error_E_low, error_time" parses to the error "low" of E at 2 and the error of time at 3 |
| StructuresGraph.ParseFailureExamples | lena/structures/graph.py:281-304 | a coordinate after an error field, and an error field with no coordinate, raise LenaValueError |
| StructuresDeprecatedGraph.Insert | lena/structures/graph.py:620-621 | inserting a point keeps all points and adds that one (insertion step of `sorted`) |
| StructuresDeprecatedGraph.SortBy | lena/structures/graph.py:620-621 | `sorted(points)` is a permutation of the points |
| StructuresDeprecatedGraph.InsertSorted | lena/structures/graph.py:620-621 | inserting into sorted points keeps them sorted |
| StructuresDeprecatedGraph.SortSorted | lena/structures/graph.py:620-621 | the sorted points are sorted |
| StructuresDeprecatedGraph.SortedUnique | lena/structures/graph.py:620-621 | two sorted orders of the same points are equal, so the result of sorting does not depend on how it is done |
| StructuresDeprecatedGraph.SortedHeads | lena/structures/graph.py:620-621 | sorted orders of the same points start with the same point |
| StructuresDeprecatedGraph.SortIdempotent | lena/structures/graph.py:620-621 | sorting sorted points changes nothing, and sorting twice is sorting once |
| StructuresDeprecatedGraph.First | lena/structures/graph.py:638 | the coordinate of a point is its first item |
| StructuresDeprecatedGraph.CoordDim | lena/structures/graph.py:634-639 | a coordinate's dimension is its length, or 1 when it has none; a point that cannot be indexed raises |
| StructuresDeprecatedGraph.CheckDims | lena/structures/graph.py:640-645 | passes exactly when every point's coordinate has the given dimension, else fails at a point that does not |
| StructuresDeprecatedGraph.PointsDim | lena/structures/graph.py:633-646 | the common dimension exactly when every coordinate has the first one's dimension; otherwise LenaValueError or the indexing error |
| StructuresDeprecatedGraph.CommonDim | lena/structures/graph.py:633-646 | the loop of the dimension check computes that dimension or error |
| StructuresDeprecatedGraph.CheckDimsPrefix | lena/structures/graph.py:640 | a failure among the first points is the failure of the check on all points |
| StructuresDeprecatedGraph.UpdateSorts | lena/structures/graph.py:620-621 | `_update` keeps the same points, sorted when *sort* is set and in fill order otherwise |
| StructuresDeprecatedGraph.UpdateContext | lena/structures/graph.py:606-626 | the scale from the current context, if given, becomes the scale; the output context is the current one with "scale" set to the scale |
| StructuresDeprecatedGraph.UpdateConflict | lena/structures/graph.py:609-618 | a context scale that differs from a set scale as Python compares them (so 2 and 2.0 agree) raises LenaRuntimeError and changes nothing |
| StructuresDeprecatedGraph.UpdateTwice | lena/structures/graph.py:606-647 | `_update` is idempotent: updating again without a fill changes nothing |
| StructuresDeprecatedGraph.SameUpdate | lena/structures/graph.py:606-647 | updating again leaves a state unchanged whenever its points are already in sorted order |
| StructuresDeprecatedGraph.DeprecatedGraph.Init | lena/structures/graph.py:421-433 | the points, the scale and the initial context {"scale": scale} are stored, with an empty output context |
| StructuresDeprecatedGraph.DeprecatedGraph.Fill | lena/structures/graph.py:449-460 | the data part is appended to the points and the context part becomes the current context; nothing else changes |
| StructuresDeprecatedGraph.DeprecatedGraph.Reset | lena/structures/graph.py:487-492 | no points and an empty current context; nothing else changes |
| StructuresDeprecatedGraph.DeprecatedGraph.Update | lena/structures/graph.py:606-647 | the new state and the result are those of the update function |
| StructuresDeprecatedGraph.NewDeprecatedGraph | lena/structures/graph.py:393-447 | a context that is neither None nor a dict raises LenaTypeError; otherwise the graph is built and updated once, and the update's error is raised |
| OutputMakeFilename.FormatterArg | lena/output/make_filename.py:57-74 | an argument left None is unset, a string becomes its formatter (or the formatter's error), anything else raises LenaTypeError |
| OutputMakeFilename.NewMakeFilename | lena/output/make_filename.py:38-74 | built exactly when at least one of filename, dirname, fileext is given and each given one is a valid format string; stores their formatters and the truth of *overwrite* |
| OutputMakeFilename.PyIn | lena/output/make_filename.py:91 | `key in context["output"]` looks at a dict's keys or a list's items, and raises TypeError for a value `in` cannot search |
| OutputMakeFilename.SetOutput | lena/output/make_filename.py:101-102 | the context gains `output.<key>` set to the text, keeps its other keys and the other keys of an output dict, and an output that is not a dict is replaced |
| OutputMakeFilename.UpdateSetsOutput | lena/output/make_filename.py:101-102 | `update_recursively(context, {"output": {key: res}})` computes exactly that context |
| OutputMakeFilename.Formatted | lena/output/make_filename.py:95-104 | a LenaKeyError while formatting skips the key; any other error is raised; a key that is set holds the formatted text |
| OutputMakeFilename.CallLoop | lena/output/make_filename.py:76-110 | the loop over "filename", "fileext", "dirname" computes the call |
| OutputMakeFilename.Step | lena/output/make_filename.py:89-104 | a key without a formatter is skipped; a key that is set holds the text formatted from the context |
| OutputMakeFilename.Steps | lena/output/make_filename.py:89-104 | when no key is set the context is unchanged |
| OutputMakeFilename.Call | lena/output/make_filename.py:76-110 | the data of the value is kept |
| OutputMakeFilename.KeepsExisting | lena/output/make_filename.py:90-93 | a key already in `context.output` is kept unless *overwrite* is set |
| OutputMakeFilename.SkipsMissingKey | lena/output/make_filename.py:95-99 | a context lacking a key the format needs leaves that output key unset |
| OutputMakeFilename.StepSets | lena/output/make_filename.py:90-103 | a key is set exactly when it is absent or *overwrite* is set, it has a formatter, and formatting succeeds; it is set to the formatted text and the other context keys stay |
| OutputMakeFilename.StepFails | lena/output/make_filename.py:90-99 | the only errors are `in` on an unsearchable output value and formatting errors other than LenaKeyError |
| OutputMakeFilename.StepsKeep | lena/output/make_filename.py:86-110 | an unmodified context is the same context; a modified one keeps every key and every value outside "output" |
| OutputMakeFilename.CallKeepsData | lena/output/make_filename.py:76-110 | the value itself is returned exactly when no key was set (every step gave None); otherwise the data is kept and the context is the updated one, holding an "output" dictionary; the keys outside "output" keep their values |
| OutputMakeFilename.StepsNoneSet | lena/output/make_filename.py:89-104 | the flag of the keys is false exactly when every key was skipped |
| OutputMakeFilename.ModifiedHasOutput | lena/output/make_filename.py:100-103 | after a key was set the context has an output dict |
| OutputMakeFilename.OutputStays | lena/output/make_filename.py:90-103 | later keys keep an output dict a dict |
| OutputMakeFilename.StepsThree | lena/output/make_filename.py:90-103 | the three keys are handled in turn, each seeing the context the previous ones left |
| OutputMakeFilename.PlainText | lena/context/functions.py:137-204 | a format string without braces formats to itself, with no keys |
| OutputMakeFilename.FieldParse | lena/context/functions.py:137-204 | "{{key}}" prepares the formatter with template "{}" and the one key |
| OutputMakeFilename.FieldFormat | lena/context/functions.py:191-200 | that formatter gives the string stored under the key |
| OutputMakeFilename.NoContextExample | tests/output/test_make_filename.py:69-74 | a value with no context gets `output.filename` and `output.fileext` and keeps its data |
| OutputMakeFilename.ExistingKept | tests/output/test_make_filename.py:39-51 | an existing `output.filename` is kept and the value is returned as it is |
| OutputMakeFilename.ExistingReplaced | tests/output/test_make_filename.py:39-51 | with *overwrite*, an existing `output.filename` is replaced by the formatted name |
| OutputMakeFilename.FormattingExample | tests/output/test_make_filename.py:76-80 | `MakeFilename("{{datatype}}")` on a context with datatype "MC" sets `output.filename` to "MC" |
| OutputWrite.NewWrite | lena/output/write.py:52-70 | a directory or default file name that is not a string raises LenaTypeError; *existing_unchanged* together with *overwrite* raises LenaValueError; otherwise both names are kept |
| OutputWrite.NormalizePathAsWritten | lena/output/write.py:97-108 | a returned path is relative; a path with two leading separators fails the assertion |
| OutputWrite.NormalizePath | lena/output/write.py:97-108 | every string normalizes to a relative path: all leading separators removed, a relative path kept as it is |
| OutputWrite.NormalizeAgrees | lena/output/write.py:97-108 | both versions agree except on paths with two leading separators |
| OutputWrite.DoubleSlashDirname | lena/output/write.py:104-107 | "//tmp" fails the assertion as written and becomes "tmp" once corrected |
| OutputWrite.StripSeps | lena/output/write.py:104-106 | removes exactly the leading separators, leaving a relative suffix |
| OutputWrite.PathJoin | lena/output/write.py:111 | `os.path.join` on POSIX: a relative part extends the path, an absolute one replaces it |
| OutputWrite.FileExt | lena/output/write.py:76-79 | *filetype* is used only when *fileext* is absent; the default extension is "txt" |
| OutputWrite.NameWithExt | lena/output/write.py:93-96 | an empty extension adds no dot; otherwise name, dot and extension |
| OutputWrite.FileNameOf | lena/output/write.py:72-113 | an empty file name in the context raises LenaRuntimeError; a missing one takes the default; the extension is `FileExt` |
| OutputWrite.FileNamePath | lena/output/write.py:97-113 | the file path is the output directory joined with the normalized directory and file name, and is relative when the output directory is |
| OutputWrite.FileNameDefaultExample | tests/output/test_write.py:20-23 | `Write("", name)` with an empty output context makes "name.txt" |
| OutputWrite.OutputWriteKey | lena/output/write.py:172 | the dotted key "output.write" looks up the nested key |
| OutputWrite.IsWritable | lena/output/write.py:170-184 | a value is written exactly when `output.write` is not falsy (True when absent) and its data is a string or has a `write` method |
| OutputWrite.NotWritablePasses | lena/output/write.py:186-190 | a value that is not written passes unchanged and the files stay as they were |
| OutputWrite.Written | lena/output/write.py:203-205 | the output dict gains `filename`, `fileext` and `filepath`, and keeps its other keys |
| OutputWrite.WriteValueParts | lena/output/write.py:192-263 | a written value becomes the file path with the context whose output has the file name fields and the changed flag of `Outcome` |
| OutputWrite.WrittenValue | lena/output/write.py:192-263 | the file path is yielded as data; the other context keys stay; the output holds the file name and extension |
| OutputWrite.WriteValue | lena/output/write.py:192-263 | an `output` that is not a dictionary is an AttributeError; a written value yields its file path as data |
| OutputWrite.WrittenOutput | lena/output/write.py:203-207 | the output dict holds the file name, extension and path, and keeps every other key but `changed` |
| OutputWrite.ChangedFlag | lena/output/write.py:207-263 | `output.changed` is True after a `write` method, an overwrite, or different content; its prior value (default False) when existing files are assumed unchanged or the content is the same; left as it was for a new file |
| OutputWrite.FileHoldsData | lena/output/write.py:220-261 | after a string is written its file holds it, unless an existing file is assumed unchanged; the other files stay |
| OutputWrite.WriteAgain | lena/output/write.py:186-263 | writing the same value again leaves the files as the first write left them |
| OutputWrite.WriteValueAgain | lena/output/write.py:220-261 | a second write of the same string succeeds and changes no file |
| OutputWrite.WriteValueFiles | lena/output/write.py:192-263 | whether a value is written does not depend on the files already there, and the new files are those the outcome of writing gives |
| OutputWrite.FoldPasses | lena/output/write.py:186-263 | one output per input, and a value every step passes is yielded unchanged |
| OutputWrite.RunPasses | lena/output/write.py:186-190 | `run` yields one value per input, and every value whose `output.write` is falsy is yielded unchanged |
| OutputWrite.Fold | lena/output/write.py:186-263 | a successful run yields one value per input |
| OutputWrite.RunAll | lena/output/write.py:186-263 | `run` yields one value per input |
| OutputWrite.Run | lena/output/write.py:115-263 | the loop over the flow computes the values yielded and the files written |
| OutputWrite.FoldPrefix | lena/output/write.py:186-263 | an error among the first values is the error of the run, and nothing after it is written |
| Values.Canon | lena/context/functions.py:83-93 | the representative of a value under Python `==`: booleans and integral floats become the equal integer, strings, None and objects are themselves, and lists, tuples and dicts keep their kind and keys with every element canonical |
| Values.PyEqExamples | lena/context/functions.py:83-93 | as Python compares them 1 == True, 1 == 1.0 and False == 0, while [1] != (1,), "1" != 1 and 0.5 != 0 |
| Values.PyEqDict | lena/context/functions.py:83-93 | two dicts equal as Python compares them have the same keys and pairwise equal values |
| ContextFunctions.PyEqContained | lena/context/functions.py:14-60 | a dictionary equal to another as Python compares them is contained in it |
| ContextSets.DifferenceNumericEqual | lena/context/functions.py:83-93 | `difference({"a": 1}, {"a": 1.0})` and `difference({"a": True}, {"a": 1})` are both {} |
| FlowGroupBy.Find | lena/flow/group_by.py:45-46 | a key finds a listed group key exactly when one is equal to it as Python compares them, and then the first such key; a key already listed is always found |
| FlowGroupBy.GroupEqualKeys | lena/flow/group_by.py:45-49 | three values whose keys are equal as Python compares them make one group, keyed by the first, holding all three in order |
| FlowGroupBy.NumericKeysExample | lena/flow/group_by.py:45-49 | grouping 1, True and 1.0 by themselves makes one group keyed 1 holding all three, in order |
| FlowGroupPlots.ContextUpdateAsWritten | lena/flow/group_plots.py:99-101 | the update as written only adds keys of the common context, each with the common value, taken from the as-written difference |
| FlowGroupPlots.UpdateWithGroupAsWritten | lena/flow/group_plots.py:73-105 | `_update_with_group` as written fails exactly when the flags are unhashable and always sets "group" |
| FlowGroupPlots.UpdateWithGroupLosesFalsy | lena/flow/group_plots.py:99-104 | with context {"a": 1}, old common context {"a": 1} and new group [{"a": 0}], the as-written update leaves "a" at 1 while the corrected one sets it to the new common value 0 |
| ContextFormat.PyFormat | lena/context/functions.py:191-200 | `str.format` fails only with ValueError or IndexError, and a template without braces is returned unchanged |
| Values.ScalarStr | lena/context/functions.py:53-60 | the string form of None, booleans, integers and strings, as `str` gives it |

## Left out

- Selectors.Bases, Selectors.IsInstance, Selectors.SelectedMeaning: `isinstance`
  knows only the inheritance in the `Bases` table (`bool` and Lena's own
  classes modelled here). Base classes of user classes, and the rest of
  Lena's class hierarchy, are not modelled. A user class is an instance of
  itself and of `object` only.
- CoreBuild.IsIntLiteral, CoreBuild.TrimStart, CoreBuild.TrimEnd: `int()` on a
  string is modelled for ASCII whitespace and ASCII decimal digits. Unicode
  whitespace and non-ASCII decimal digits, which `int()` also accepts, are
  not modelled.
- FlowSplitIntoBins.EdgeAxes: edges are lists in the model. The source treats
  edges as one-dimensional unless `edges[0]` is a list, so edges given as a
  tuple of tuples are one axis to it. That case is not represented.
- Values.Val: the `__eq__` methods of Lena's own classes (histograms, graphs,
  variables) are modelled as structural equality of their model values.
  Python `==` on built-in values (1 == 1.0 == True, element-wise for lists,
  tuples and dicts) is modelled by `Values.PyEq`. A float NaN, which is not
  equal to itself, is not modelled.
- Values.ScalarStr, ContextFunctions.Contains: `str()` is modelled only for
  None, booleans, integers and strings. The string form of floats, lists,
  tuples, dicts and objects is not modelled. So `Contains` is false where the
  source would compare a leaf such as `[1]` with its printed form (`"a.[1]"`
  in `{"a": [1]}`).
- CoreRun.RunFlow, CoreRun.RunAll, CoreRun.FillRequestRun, CoreRun.SplitBuffers:
  - Flows are finite sequences evaluated eagerly. When an element raises, the
    model returns only the error. The source has already passed the outputs
    before the error downstream.
  - Laziness, infinite flows and the order in which side effects interleave
    with pulling values are not captured.
  - The non-terminating list flow of the as-written `FillRequest.run` is
    modelled separately with a pass bound, in `CoreLaws.FillRequestAsWritten`.
- ContextFunctions.UpdateRecursively, ContextFunctions.UpdateNested,
  ContextElements.ApplyUpdate, ContextElements.Delete: `update_recursively`,
  `update_nested`, the `UpdateContext` call and `DeleteContext` change the
  caller's dictionary in place. The model gives them pure functions that return
  the new dictionary. Update in place, and aliasing (another reference to the
  same dict seeing the change), are not captured.
- Variables.UpdateContext, Variables.Call: `Variable.__call__` updates the
  value's context dictionary in place (lena/variables/variable.py:193-220).
  The model returns the new context and the new value. Update in place and
  aliasing (another reference to the same dict seeing the change) are not
  captured.
- CoreRun.Iterate: iterating a dict yields its keys in insertion order in
  Python. In the model it is a TypeError, because a map keeps no insertion
  order.
- MathMeshes.Flatten: it iterates through `CoreRun.Iterate`, so flattening a
  dict, which yields its keys in Python, is a TypeError in the model.
- Values.Val, Variables.MakeVariable: dict keys are strings. A non-string
  truthy type (such as 1 or a tuple), which lena/variables/variable.py:114-123
  stores as a context key, is a TypeError in the model.
- StructuresGraph.ScaleTo: the source rescales the graph in place; the model
  returns the new graph, so aliasing is not captured. The arrays rescaled
  before a TypeError stay rescaled in the source, which the model does not
  capture, and neither does `float(other)` of a numeric string. Floats are
  Dafny `real`.
- FlowElements.Count.FillInto, FlowElements.Count.Compute: `fill_into` and
  `compute` write the count into the value's own context dict in place. The
  model returns the new value instead, so aliasing is not captured.
- DropContext's in-place context update is modelled as a value, for the same
  reason.
- MathElements.Sum, MathElements.Mean, Histograms.Histogram.Scale,
  Histograms.Histogram.Rescale, StructuresDeprecatedGraph: floats are Dafny
  `real`. Rounding, overflow to infinity and NaN are not modelled. The float
  multiplication in the deprecated `Graph.scale` is left out with that method.
- ContextFormat.PyFormat: a conversion (`!r`, `!s`) or format spec (`:>3`)
  inside a replacement field is skipped, and every field becomes the
  argument's plain `str`. Quoting by `!r` and padding by a spec are not
  captured.
- `copy.deepcopy`, the `copy_buf` flag of `Split` and `flow_to_iter`
  (lena/core/functions.py) leave no trace in the model. Values are immutable,
  so a copy is indistinguishable from the original, and every flow is already
  a sequence.
- `split_into_bins`' `compute` calls a helper, `_make_hist_context`, that
  `hist_functions` does not define. That operation is not part of this model;
  its bin and context helpers are modelled.
- The duplicate `split_into_bins` in `lena/structures` and `compose.__eq__`
  are not part of this model.
- The deprecated `Graph`'s `request`, `points`, `scale`, `to_csv` and
  `__repr__` are left out: they are output formatting and float arithmetic.
  `fill`, `reset`, `_update` and the scale checks are modelled.
- Printing, `verbose` output, logging, the jinja template rendering, the real
  file system (it is a map from path to contents) and the environment are left
  out. Paths are POSIX paths.
- Functions that walk recursive structures with Python recursion take a
  `fuel` argument where termination needs one, in the `alter_sequence` hooks
  of `CoreMeta`. A call that runs out of fuel is reported as an error, where
  Python would recurse without limit.

## Findings

| source | as written | input that shows it | evidently intended | confidence | as-written member | corrected member |
|---|---|---|---|---|---|---|
| lena/context/functions.py:96-98 | `if res:` drops a differing key whenever the recursive difference of its values is falsy, including a scalar 0, "" or False | `difference({"a": 0}, {"a": 1})` is `{}`, so updating `{"a": 1}` with it does not give back `{"a": 0}` (lemma `ContextSets.DifferenceAsWrittenLosesFalsy`) | drop a key only when both values are dicts with an empty difference | not executed | ContextSets.DifferenceAsWritten | ContextSets.Difference |
| lena/flow/group_plots.py:99-104 | the context update of `_update_with_group` goes through that `difference`, so a common value that became falsy is never written | context `{"a": 1}`, old common context `{"a": 1}`, new group `[{"a": 0}]`: "a" stays 1 (lemma `FlowGroupPlots.UpdateWithGroupLosesFalsy`) | the context takes the new common value 0 | not executed | FlowGroupPlots.UpdateWithGroupAsWritten | FlowGroupPlots.UpdateWithGroup |
| lena/context/elements.py:40 | `_keyl[-1]` on the empty key raises IndexError, although the comment at line 26 says an empty key removes the whole context | `DeleteContext("")` on any value (lemma `ContextElements.DeleteEmptyKeyFails`) | the empty key deletes the whole context | not executed | ContextElements.DeleteAsWritten | ContextElements.Delete |
| lena/flow/zip.py:61 | `update_nested` is called with two arguments but takes three, so a non-empty difference between the zipped contexts raises TypeError | zipping a value without context with one whose context is `{"new_context": 1}` (lemma `FlowZip.ZipContextExample`) | the context `{"zip": ({}, {"new_context": 1})}` | not executed | FlowZip.CreateContextAsWritten | FlowZip.CreateContext |
| lena/core/source.py:37 | `Source`, `FillSeq` and `FillComputeSeq` call `super().__init__(*args)`, which reaches `object.__init__` and raises TypeError | `Source(data, f)` for any list *data* and callable *f* (lemmas `CoreLaws.SourceOfData`, `CoreLaws.FillSeqAddSubBuilt`) | store the members as the sequence's elements | not executed | CoreBuild.MakeSourceAsWritten | CoreBuild.MakeSource |
| lena/core/fill_seq.py:50 | as in the row above, for `FillSeq` | building any `FillSeq` (lemma `CoreLaws.FillSeqAddSubBuilt`) | as above | not executed | CoreBuild.MakeFillSeqAsWritten | CoreBuild.MakeFillSeq |
| lena/core/fill_compute_seq.py:83 | as in the row above, for `FillComputeSeq` | building any `FillComputeSeq` | as above | not executed | CoreBuild.MakeFillComputeSeqAsWritten | CoreBuild.MakeFillComputeSeq |
| lena/core/adapters.py:306 | `islice(flow, bufsize)` is taken without `iter(flow)`, so on a list every slice starts again at its head | `FillRequest(Sum(), bufsize=1).run([1])` yields 1, 2, 3, ... without end (lemmas `CoreLaws.ListFlowNeverEnds`, `CoreLaws.SumOverListRepeats`) | consume the flow once, batch by batch, as on an iterator (lemma `CoreLaws.IteratorFlowAgrees`) | not executed | CoreLaws.FillRequestAsWritten | CoreRun.FillRequestRun |
| lena/flow/elements.py:238-241 | `LenaTypeError` is not imported, so a non-callable chunk container raises NameError | any non-callable container (lemma `FlowElements.ChunkConstructorsDiffer`) | raise LenaTypeError | not executed | FlowElements.MakeRunningChunkByAsWritten | FlowElements.MakeRunningChunkBy |
| lena/flow/group_plots.py:349-350 | `self._scale(grp)` calls a `GroupScale`, which has no `__call__`, and discards the result | a group of one histogram of scale 2 with scale 1 set (lemmas `FlowGroupPlotsClass.ScaleCallAsWritten`, `FlowGroupPlotsClass.ScaleExample`) | `grp = self._scale.scale(grp)`, which yields the histogram rescaled to 1 | not executed | FlowGroupPlotsClass.EmitGroupAsWritten | FlowGroupPlotsClass.EmitGroup |
| lena/structures/histogram.py:113-139 | a histogram with a single nested axis gets a bin layout that its own initialisation rejects | edges `[[0, 1, 2]]`: the layout reports 0 bins and the constructor rejects its own bins (lemma `Histograms.SingleNestedAxisExample`) | one axis of 2 bins, as `unify_1_md` documents | not executed | Histograms.InitAsWritten | Histograms.Init |
| lena/variables/variable.py:204 | `extend(cur_type)` with a string type appends its characters to "compose" | a variable of type "t" composed with one of type "ab" whose "compose" is ["s", "ab"] gives ["t", "a", "b"] (lemma `Variables.ComposeExtendAsWritten`) | extend by the inner "compose" list, giving ["t", "s", "ab"] (lemma `Variables.ComposeExtendFixed`) | not executed | Variables.ComposedAsWritten | Variables.Composed |
| lena/output/write.py:104-107 | only one leading "/" is stripped, then `assert not os.path.isabs` fails | context "output.dirname" = "//tmp" (lemma `OutputWrite.DoubleSlashDirname`) | strip every leading separator (lemma `OutputWrite.NormalizeAgrees`) | not executed | OutputWrite.NormalizePathAsWritten | OutputWrite.NormalizePath |
| lena/math/meshes.py:75 | raises `lena.core.LenaTypeError`, but the module never imports `lena` (meshes.py:1-5), so a value that is not a list raises NameError | `md_map(abs, (0, 1))` (lemmas `MathMeshes.MdMapExamples`, `MathMeshes.MdMapAsWrittenRenames`) | raise LenaTypeError | not executed | MathMeshes.MdMapAsWritten | MathMeshes.MdMap |
