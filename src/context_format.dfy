// `format_context`: a formatter over contexts built from a template with
// double braces (lena/context/functions.py).

module ContextFormat {
  import opened Wrappers
  import opened Values
  import opened Strings
  import opened ContextFunctions

  /** A prepared formatter: a Python format string whose fields are nameless,
      and the dotted context keys whose values fill those fields in order. */
  datatype Formatter = Formatter(template: string, keys: seq<string>)

  // ------------------------------------------------------------------
  // Parsing the single-brace template

  predicate IsTerminator(c: char)
  {
    c == '}' || c == '!' || c == ':'
  }

  /** The end of the run of '{' that starts at *i*. */
  function BraceEnd(s: string, i: nat): (j: nat)
    requires i <= |s|
    ensures i <= j <= |s|
    ensures forall k :: i <= k < j ==> s[k] == '{'
    ensures j < |s| ==> s[j] != '{'
    decreases |s| - i
  {
    if i == |s| || s[i] != '{' then i else BraceEnd(s, i + 1)
  }

  /** The position of the first '}', '!' or ':' at or after *i*, or |s|. */
  function FieldEnd(s: string, i: nat): (j: nat)
    requires i <= |s|
    ensures i <= j <= |s|
    ensures forall k :: i <= k < j ==> !IsTerminator(s[k])
    ensures j < |s| ==> IsTerminator(s[j])
    decreases |s| - i
  {
    if i == |s| || IsTerminator(s[i]) then i else FieldEnd(s, i + 1)
  }

  /** Put a template prefix and some keys in front of a parse result. */
  function Prepend(prefix: string, keys: seq<string>, r: Result<Formatter>): Result<Formatter>
  {
    match r
    case Failure(e) => Failure(e)
    case Success(f) => Success(Formatter(prefix + f.template, keys + f.keys))
  }

  /** Parsing from position *i*: a character other than '{' is copied; a run
      of '{' is copied and the field name after it, up to the first '}', '!'
      or ':', becomes a key while that terminator stays in the template. A
      run of '{' or a field name that reaches the end of the string is an
      IndexError, as reading past the end is in the source. */
  function ParseAt(s: string, i: nat): (r: Result<Formatter>)
    requires i <= |s|
    ensures r.Failure? ==> r.error == PyIndexError
    decreases |s| - i
  {
    if i == |s| then Success(Formatter("", []))
    else if s[i] != '{' then Prepend([s[i]], [], ParseAt(s, i + 1))
    else
      var j := BraceEnd(s, i);
      if j == |s| then Failure(PyIndexError)
      else
        var k := FieldEnd(s, j);
        if k == |s| then Failure(PyIndexError)
        else Prepend(s[i..j], [s[j..k]], ParseAt(s, k))
  }

  /** A template without a brace has no fields and is kept as it is; the
      only error is reading past the end. */
  function Parse(s: string): (r: Result<Formatter>)
    ensures r.Failure? ==> r.error == PyIndexError
    ensures '{' !in s ==> r == Success(Formatter(s, []))
  {
    if '{' !in s then ParseAtNoBrace(s, 0); ParseAt(s, 0) else ParseAt(s, 0)
  }

  lemma {:induction false} ParseAtNoBrace(s: string, i: nat)
    requires i <= |s|
    requires forall k :: i <= k < |s| ==> s[k] != '{'
    ensures ParseAt(s, i) == Success(Formatter(s[i..], []))
    decreases |s| - i
  {
    if i < |s| {
      ParseAtNoBrace(s, i + 1);
      assert s[i..] == [s[i]] + s[i + 1..];
      assert ParseAt(s, i) == Prepend([s[i]], [], ParseAt(s, i + 1));
      var none: seq<string> := [];
      assert none + none == none;
    } else {
      assert s[i..] == [];
    }
  }

  lemma PrependPrepend(p: string, a: seq<string>, q: string, b: seq<string>, r: Result<Formatter>)
    ensures Prepend(p, a, Prepend(q, b, r)) == Prepend(p + q, a + b, r)
  {
    if r.Success? {
      assert p + (q + r.value.template) == (p + q) + r.value.template;
      assert a + (b + r.value.keys) == (a + b) + r.value.keys;
    }
  }

  lemma PrependNothing(r: Result<Formatter>)
    ensures Prepend("", [], r) == r
  {
    if r.Success? {
      assert "" + r.value.template == r.value.template;
      assert [] + r.value.keys == r.value.keys;
    }
  }

  /** A run of '{' or a field name that reaches the end fails the parse. */
  lemma ParseAtFails(s: string, start: nat, newStr: string, newArgs: seq<string>)
    requires start < |s| && s[start] == '{'
    requires BraceEnd(s, start) == |s| || FieldEnd(s, BraceEnd(s, start)) == |s|
    ensures Prepend(newStr, newArgs, ParseAt(s, start)) == Failure(PyIndexError)
  {
  }

  /** A field: the braces are copied and the name becomes a key. */
  lemma ParseAtField(s: string, start: nat, j: nat, k: nat)
    requires start < |s| && s[start] == '{'
    requires j == BraceEnd(s, start) && j < |s| && k == FieldEnd(s, j) && k < |s|
    ensures ParseAt(s, start) == Prepend(s[start..j], [s[j..k]], ParseAt(s, k))
  {
  }

  /** The inner loop over a run of '{'. */
  method SkipBraces(s: string, start: nat) returns (ind: nat)
    requires start <= |s|
    ensures ind == BraceEnd(s, start)
  {
    ind := start;
    while ind < |s| && s[ind] == '{'
      invariant start <= ind <= |s|
      invariant BraceEnd(s, ind) == BraceEnd(s, start)
      decreases |s| - ind
    {
      ind := ind + 1;
    }
  }

  /** The inner loop over a field name, up to its terminator. */
  method ReadField(s: string, fieldStart: nat) returns (ind: nat, newArg: string)
    requires fieldStart <= |s|
    ensures ind == FieldEnd(s, fieldStart) && newArg == s[fieldStart..ind]
  {
    ind, newArg := fieldStart, "";
    while ind < |s| && !IsTerminator(s[ind])
      invariant fieldStart <= ind <= |s|
      invariant FieldEnd(s, ind) == FieldEnd(s, fieldStart)
      invariant newArg == s[fieldStart..ind]
      decreases |s| - ind
    {
      assert s[fieldStart..ind + 1] == s[fieldStart..ind] + [s[ind]];
      newArg := newArg + [s[ind]];
      ind := ind + 1;
    }
  }

  /** The parsing loop of `format_context`, character by character. */
  method ParseFields(s: string) returns (r: Result<Formatter>)
    ensures r == Parse(s)
  {
    var newStr: string := "";
    var newArgs: seq<string> := [];
    var ind := 0;
    PrependNothing(Parse(s));
    while ind < |s|
      invariant 0 <= ind <= |s|
      invariant Prepend(newStr, newArgs, ParseAt(s, ind)) == Parse(s)
      decreases |s| - ind
    {
      var c := s[ind];
      if c != '{' {
        assert ParseAt(s, ind) == Prepend([c], [], ParseAt(s, ind + 1));
        assert newArgs + [] == newArgs;
        PrependPrepend(newStr, newArgs, [c], [], ParseAt(s, ind + 1));
        newStr := newStr + [c];
        ind := ind + 1;
        continue;
      }
      var start := ind;
      ind := SkipBraces(s, start);
      if ind == |s| {
        ParseAtFails(s, start, newStr, newArgs);
        return Failure(PyIndexError);
      }
      var fieldStart := ind;
      var newArg;
      ind, newArg := ReadField(s, fieldStart);
      if ind == |s| {
        ParseAtFails(s, start, newStr, newArgs);
        return Failure(PyIndexError);
      }
      ParseAtField(s, start, fieldStart, ind);
      PrependPrepend(newStr, newArgs, s[start..fieldStart], [newArg], ParseAt(s, ind));
      newStr := newStr + s[start..fieldStart];
      newArgs := newArgs + [newArg];
    }
    r := Success(Formatter(newStr, newArgs));
    assert newStr + "" == newStr;
    assert newArgs + [] == newArgs;
  }

  // ------------------------------------------------------------------
  // Round trip: templates built from pieces parse back into their keys

  /** A piece of a single-brace template: a literal character, or a field
      `{name` closed by a terminator. */
  datatype Piece = Lit(c: char) | Field(name: string, term: char)

  predicate GoodPiece(p: Piece)
  {
    match p
    case Lit(c) => c != '{'
    case Field(name, term) =>
      IsTerminator(term) && forall i :: 0 <= i < |name| ==> name[i] != '{' && !IsTerminator(name[i])
  }

  function Render(ps: seq<Piece>): string
  {
    if |ps| == 0 then ""
    else
      match ps[0]
      case Lit(c) => [c] + Render(ps[1..])
      case Field(name, term) => "{" + name + [term] + Render(ps[1..])
  }

  /** The template the formatter keeps: every field loses its name. */
  function Skeleton(ps: seq<Piece>): string
  {
    if |ps| == 0 then ""
    else
      match ps[0]
      case Lit(c) => [c] + Skeleton(ps[1..])
      case Field(_, term) => "{" + [term] + Skeleton(ps[1..])
  }

  function Names(ps: seq<Piece>): seq<string>
  {
    if |ps| == 0 then []
    else
      match ps[0]
      case Lit(_) => Names(ps[1..])
      case Field(name, _) => [name] + Names(ps[1..])
  }

  /** Parsing from a position depends only on the text from there on. */
  lemma {:induction false} ParseAtShift(pre: string, s: string, i: nat)
    requires i <= |s|
    ensures ParseAt(pre + s, |pre| + i) == ParseAt(s, i)
    decreases |s| - i
  {
    if i < |s| {
      assert (pre + s)[|pre| + i] == s[i];
      if s[i] != '{' {
        ParseAtShift(pre, s, i + 1);
        ShiftLit(pre, s, i);
      } else {
        BraceEndShift(pre, s, i);
        var j := BraceEnd(s, i);
        if j < |s| {
          FieldEndShift(pre, s, j);
        }
        if j < |s| && FieldEnd(s, j) < |s| {
          ParseAtShift(pre, s, FieldEnd(s, j));
          ShiftField(pre, s, i);
        } else {
          ShiftFails(pre, s, i);
        }
      }
    }
  }

  lemma ShiftLit(pre: string, s: string, i: nat)
    requires i < |s| && s[i] != '{'
    requires ParseAt(pre + s, |pre| + i + 1) == ParseAt(s, i + 1)
    ensures ParseAt(pre + s, |pre| + i) == ParseAt(s, i)
  {
    assert (pre + s)[|pre| + i] == s[i];
  }

  lemma ShiftField(pre: string, s: string, i: nat)
    requires i < |s| && s[i] == '{'
    requires BraceEnd(pre + s, |pre| + i) == |pre| + BraceEnd(s, i) && BraceEnd(s, i) < |s|
    requires FieldEnd(pre + s, |pre| + BraceEnd(s, i)) == |pre| + FieldEnd(s, BraceEnd(s, i)) && FieldEnd(s, BraceEnd(s, i)) < |s|
    requires ParseAt(pre + s, |pre| + FieldEnd(s, BraceEnd(s, i))) == ParseAt(s, FieldEnd(s, BraceEnd(s, i)))
    ensures ParseAt(pre + s, |pre| + i) == ParseAt(s, i)
  {
    var t := pre + s;
    var j := BraceEnd(s, i);
    var k := FieldEnd(s, j);
    assert t[|pre| + i] == s[i];
    SliceShift(pre, s, i, j);
    SliceShift(pre, s, j, k);
    SameField(s, i, j, k, t, |pre| + i, |pre| + j, |pre| + k);
  }

  /** Two fields with the same text, followed by the same parse, parse
      the same. */
  lemma SameField(s: string, i: nat, j: nat, k: nat, t: string, ti: nat, tj: nat, tk: nat)
    requires i < |s| && s[i] == '{' && j == BraceEnd(s, i) && j < |s| && k == FieldEnd(s, j) && k < |s|
    requires ti < |t| && t[ti] == '{' && tj == BraceEnd(t, ti) && tj < |t| && tk == FieldEnd(t, tj) && tk < |t|
    requires t[ti..tj] == s[i..j] && t[tj..tk] == s[j..k] && ParseAt(t, tk) == ParseAt(s, k)
    ensures ParseAt(t, ti) == ParseAt(s, i)
  {
    ParseAtField(s, i, j, k);
    ParseAtField(t, ti, tj, tk);
  }

  lemma SliceShift(pre: string, s: string, a: nat, b: nat)
    requires a <= b <= |s|
    ensures (pre + s)[|pre| + a..|pre| + b] == s[a..b]
  {
  }

  lemma ShiftFails(pre: string, s: string, i: nat)
    requires i < |s| && s[i] == '{'
    requires BraceEnd(pre + s, |pre| + i) == |pre| + BraceEnd(s, i)
    requires BraceEnd(s, i) < |s| ==> FieldEnd(pre + s, |pre| + BraceEnd(s, i)) == |pre| + FieldEnd(s, BraceEnd(s, i))
    requires BraceEnd(s, i) == |s| || FieldEnd(s, BraceEnd(s, i)) == |s|
    ensures ParseAt(pre + s, |pre| + i) == ParseAt(s, i)
  {
    assert (pre + s)[|pre| + i] == s[i];
  }


  lemma {:induction false} BraceEndShift(pre: string, s: string, i: nat)
    requires i <= |s|
    ensures BraceEnd(pre + s, |pre| + i) == |pre| + BraceEnd(s, i)
    decreases |s| - i
  {
    if i < |s| {
      assert (pre + s)[|pre| + i] == s[i];
      BraceEndShift(pre, s, i + 1);
    }
  }

  lemma {:induction false} FieldEndShift(pre: string, s: string, i: nat)
    requires i <= |s|
    ensures FieldEnd(pre + s, |pre| + i) == |pre| + FieldEnd(s, i)
    decreases |s| - i
  {
    if i < |s| {
      assert (pre + s)[|pre| + i] == s[i];
      FieldEndShift(pre, s, i + 1);
    }
  }

  /** A template rendered from well-formed pieces parses back into its field
      names, in order, and its nameless skeleton. */
  lemma {:induction false} ParseRender(ps: seq<Piece>)
    requires forall i :: 0 <= i < |ps| ==> GoodPiece(ps[i])
    ensures Parse(Render(ps)) == Success(Formatter(Skeleton(ps), Names(ps)))
  {
    if |ps| > 0 {
      var rest := Render(ps[1..]);
      ParseRender(ps[1..]);
      var tail := Success(Formatter(Skeleton(ps[1..]), Names(ps[1..])));
      match ps[0]
      case Lit(c) => {
        ParseLit(c, rest);
        assert [] + Names(ps[1..]) == Names(ps[1..]);
      }
      case Field(name, term) => {
        ParseField(name, term, rest);
      }
    }
  }

  lemma ParseLit(c: char, rest: string)
    requires c != '{'
    ensures ParseAt([c] + rest, 0) == Prepend([c], [], ParseAt(rest, 0))
  {
    ParseAtShift([c], rest, 0);
  }

  lemma ParseField(name: string, term: char, rest: string)
    requires GoodPiece(Field(name, term))
    ensures ParseAt("{" + name + [term] + rest, 0) == Prepend("{" + [term], [name], ParseAt(rest, 0))
  {
    var s := "{" + name + [term] + rest;
    assert BraceEnd(s, 1) == 1 by {
      assert |name| > 0 ==> s[1] == name[0];
      assert |name| == 0 ==> s[1] == term;
    }
    assert BraceEnd(s, 0) == 1;
    FieldEndName(s, name, term, rest);
    var k := 1 + |name|;
    assert s[1..k] == name;
    assert s[0..1] == "{";
    assert s[0] == '{';
    assert ParseAt(s, 0) == Prepend(s[0..1], [s[1..k]], ParseAt(s, k));
    ParseAtShift(s[..k], [term] + rest, 0);
    assert s[..k] + ([term] + rest) == s;
    assert ParseAt(s, k) == ParseAt([term] + rest, 0);
    ParseLit(term, rest);
    PrependPrepend("{", [name], [term], [], ParseAt(rest, 0));
    assert [name] + [] == [name];
  }

  lemma FieldEndName(s: string, name: string, term: char, rest: string)
    requires s == "{" + name + [term] + rest
    requires IsTerminator(term)
    requires forall i :: 0 <= i < |name| ==> !IsTerminator(name[i])
    ensures FieldEnd(s, 1) == 1 + |name|
  {
    FieldEndScan(s, 1, 1 + |name|);
  }

  lemma {:induction false} FieldEndScan(s: string, i: nat, k: nat)
    requires i <= k < |s|
    requires forall j :: i <= j < k ==> !IsTerminator(s[j])
    requires IsTerminator(s[k])
    ensures FieldEnd(s, i) == k
    decreases k - i
  {
    if i < k {
      FieldEndScan(s, i + 1, k);
    }
  }

  // ------------------------------------------------------------------
  // The checks and the formatter

  /** The checks `format_context` makes before parsing, and the collapse of
      double braces into single ones. */
  function CheckFormatStr(fmt: Val): (r: Result<string>)
    ensures r.Success? <==>
              fmt.VStr? && CountChar(fmt.s, '{') == CountChar(fmt.s, '}')
              && ('{' in fmt.s ==> IsSubstring("{{", fmt.s))
    ensures !fmt.VStr? ==> r == Failure(LenaTypeError)
    ensures fmt.VStr? && r.Failure? ==> r.error == LenaValueError
  {
    if !fmt.VStr? then Failure(LenaTypeError)
    else if CountChar(fmt.s, '{') != CountChar(fmt.s, '}') then Failure(LenaValueError)
    else if '{' in fmt.s && !IsSubstring("{{", fmt.s) then Failure(LenaValueError)
    else Success(Replace(Replace(fmt.s, "{{", "{"), "}}", "}"))
  }

  /** `format_context(format_str)`: the formatter it prepares. */
  function FormatContext(fmt: Val): Result<Formatter>
  {
    match CheckFormatStr(fmt)
    case Failure(e) => Failure(e)
    case Success(s) => Parse(s)
  }

  /** `format_context(format_str)`, running the parsing loop. */
  method MakeFormatter(fmt: Val) returns (r: Result<Formatter>)
    ensures r == FormatContext(fmt)
  {
    var checked := CheckFormatStr(fmt);
    if checked.Failure? {
      return Failure(checked.error);
    }
    r := ParseFields(checked.value);
  }

  /** The index of the first *c* at or after *i*, or |s|. */
  function FindChar(s: string, c: char, i: nat): (j: nat)
    requires i <= |s|
    ensures i <= j <= |s|
    ensures j < |s| ==> s[j] == c
    decreases |s| - i
  {
    if i == |s| || s[i] == c then i else FindChar(s, c, i + 1)
  }

  function PrependStr(p: string, r: Result<string>): Result<string>
  {
    match r
    case Failure(e) => Failure(e)
    case Success(s) => Success(p + s)
  }

  /** `template.format(*args)` with automatic field numbering: "{{" and "}}"
      are literal braces, a field takes the next argument, a lone "}" or an
      unclosed field is a ValueError and a missing argument an IndexError.
      A conversion (`!r`) or format spec (`:>3`) inside a field is skipped:
      every field is replaced by the argument's `str`. */
  function PyFormat(t: string, args: seq<string>): (r: Result<string>)
    ensures r.Failure? ==> r.error == PyValueError || r.error == PyIndexError
    ensures '{' !in t && '}' !in t ==> r == Success(t)
    decreases |t|
  {
    if |t| == 0 then Success("")
    else if t[0] == '{' then
      if |t| > 1 && t[1] == '{' then PrependStr("{", PyFormat(t[2..], args))
      else
        var close := FindChar(t, '}', 1);
        if close == |t| then Failure(PyValueError)
        else if |args| == 0 then Failure(PyIndexError)
        else PrependStr(args[0], PyFormat(t[close + 1..], args[1..]))
    else if t[0] == '}' then
      if |t| > 1 && t[1] == '}' then PrependStr("}", PyFormat(t[2..], args))
      else Failure(PyValueError)
    else
      assert t == [t[0]] + t[1..];
      PrependStr([t[0]], PyFormat(t[1..], args))
  }

  /** `get_recursively(context, key)` for every key, in order. */
  function LookupAll(context: Val, keys: seq<string>): (r: Result<seq<Val>>)
    ensures r.Success? ==> |r.value| == |keys|
    ensures r.Success? ==> forall i :: 0 <= i < |keys| ==>
              GetRecursively(context, VStr(keys[i]), None) == Success(r.value[i])
  {
    if |keys| == 0 then Success([])
    else
      match GetRecursively(context, VStr(keys[0]), None)
      case Failure(e) => Failure(e)
      case Success(v) =>
        match LookupAll(context, keys[1..])
        case Failure(e) => Failure(e)
        case Success(rest) => Success([v] + rest)
  }

  /** Calling the prepared formatter with a context; *pyStr* is Python's
      `str` of a value. */
  function Format(f: Formatter, context: Val, pyStr: Val -> string): (r: Result<string>)
    // every key must be found in the context
    ensures r.Success? ==> forall i :: 0 <= i < |f.keys| ==> GetRecursively(context, VStr(f.keys[i]), None).Success?
    // a template without braces is the result as it is
    ensures '{' !in f.template && '}' !in f.template && LookupAll(context, f.keys).Success? ==> r == Success(f.template)
  {
    match LookupAll(context, f.keys)
    case Failure(e) => Failure(e)
    case Success(vals) => PyFormat(f.template, Strs(vals, pyStr))
  }

  function Strs(vals: seq<Val>, pyStr: Val -> string): (r: seq<string>)
    ensures |r| == |vals|
    ensures forall i :: 0 <= i < |vals| ==> r[i] == pyStr(vals[i])
  {
    if |vals| == 0 then [] else [pyStr(vals[0])] + Strs(vals[1..], pyStr)
  }

  // ------------------------------------------------------------------
  // Round trip through the double-brace syntax

  /** A piece of a template whose literals are not braces and whose fields
      are plain `{{name}}` replacements. */
  predicate PlainPiece(p: Piece)
  {
    match p
    case Lit(c) => c != '{' && c != '}'
    case Field(name, term) =>
      term == '}' && forall i :: 0 <= i < |name| ==> name[i] !in "{}!:"
  }

  function RenderDouble(ps: seq<Piece>): string
  {
    if |ps| == 0 then ""
    else
      match ps[0]
      case Lit(c) => [c] + RenderDouble(ps[1..])
      case Field(name, _) => "{{" + name + "}}" + RenderDouble(ps[1..])
  }

  /** The text after substituting the arguments for the fields. */
  function Fill(ps: seq<Piece>, args: seq<string>): string
    requires |args| == |Names(ps)|
  {
    if |ps| == 0 then ""
    else
      match ps[0]
      case Lit(c) => [c] + Fill(ps[1..], args)
      case Field(_, _) => args[0] + Fill(ps[1..], args[1..])
  }

  lemma {:induction false} ReplaceSkip(x: string, y: string, pat: string, rep: string)
    requires |pat| > 0
    requires pat[0] !in x
    ensures Replace(x + y, pat, rep) == x + Replace(y, pat, rep)
    decreases |x|
  {
    if |x| > 0 {
      var s := x + y;
      assert s[0] == x[0];
      if |s| >= |pat| {
        assert s[..|pat|] != pat by { assert s[..|pat|][0] == x[0]; }
        assert x[1..] + y == s[1..];
        assert pat[0] !in x[1..] by { assert forall c :: c in x[1..] ==> c in x; }
        ReplaceSkip(x[1..], y, pat, rep);
        assert [x[0]] + x[1..] == x;
        calc {
          Replace(s, pat, rep);
          [s[0]] + Replace(s[1..], pat, rep);
          [x[0]] + (x[1..] + Replace(y, pat, rep));
          x + Replace(y, pat, rep);
        }
      } else {
        ReplaceShort(y, pat, rep);
      }
    } else {
      assert x + y == y;
    }
  }

  lemma ReplaceShort(y: string, pat: string, rep: string)
    requires 0 < |pat| && |y| < |pat|
    ensures Replace(y, pat, rep) == y
  {
  }

  lemma ReplaceHead(y: string, pat: string, rep: string)
    requires |pat| > 0
    ensures Replace(pat + y, pat, rep) == rep + Replace(y, pat, rep)
  {
    assert (pat + y)[..|pat|] == pat;
    assert (pat + y)[|pat|..] == y;
  }

  /** Collapsing "{{" in a plain double-brace template. */
  lemma {:induction false} CollapseOpen(ps: seq<Piece>)
    requires forall i :: 0 <= i < |ps| ==> PlainPiece(ps[i])
    ensures Replace(RenderDouble(ps), "{{", "{") == Mid(ps)
  {
    if |ps| > 0 {
      CollapseOpen(ps[1..]);
      var rest := RenderDouble(ps[1..]);
      match ps[0]
      case Lit(c) => {
        ReplaceSkip([c], rest, "{{", "{");
      }
      case Field(name, _) => {
        assert RenderDouble(ps) == "{{" + name + "}}" + rest;
        assert Mid(ps) == "{" + name + "}}" + Mid(ps[1..]);
        CollapseOpenField(name, rest);
      }
    }
  }

  lemma CollapseOpenField(name: string, rest: string)
    requires forall i :: 0 <= i < |name| ==> name[i] !in "{}!:"
    ensures Replace("{{" + name + "}}" + rest, "{{", "{") == "{" + name + "}}" + Replace(rest, "{{", "{")
  {
    assert "{{" + name + "}}" + rest == "{{" + ((name + "}}") + rest);
    ReplaceHead((name + "}}") + rest, "{{", "{");
    assert '{' !in name + "}}" by {
      forall i | 0 <= i < |name + "}}"| ensures (name + "}}")[i] != '{' {
        if i < |name| {
          assert name[i] !in "{}!:";
        }
      }
    }
    ReplaceSkip(name + "}}", rest, "{{", "{");
    assert "{" + ((name + "}}") + Replace(rest, "{{", "{")) == "{" + name + "}}" + Replace(rest, "{{", "{");
  }

  /** The template between the two collapses. */
  function Mid(ps: seq<Piece>): string
  {
    if |ps| == 0 then ""
    else
      match ps[0]
      case Lit(c) => [c] + Mid(ps[1..])
      case Field(name, _) => "{" + name + "}}" + Mid(ps[1..])
  }

  /** Collapsing "}}" after "{{". */
  lemma {:induction false} CollapseClose(ps: seq<Piece>)
    requires forall i :: 0 <= i < |ps| ==> PlainPiece(ps[i])
    ensures Replace(Mid(ps), "}}", "}") == Render(ps)
  {
    if |ps| > 0 {
      CollapseClose(ps[1..]);
      var rest := Mid(ps[1..]);
      match ps[0]
      case Lit(c) => {
        ReplaceSkip([c], rest, "}}", "}");
      }
      case Field(name, term) => {
        var open := "{" + name;
        assert '}' !in open by {
          forall i | 0 <= i < |open| ensures open[i] != '}' {
            if i > 0 {
              assert open[i] == name[i - 1];
              assert name[i - 1] !in "{}!:";
            }
          }
        }
        assert Mid(ps) == open + ("}}" + rest);
        ReplaceSkip(open, "}}" + rest, "}}", "}");
        ReplaceHead(rest, "}}", "}");
        assert Render(ps) == open + "}" + Render(ps[1..]);
      }
    }
  }

  lemma {:induction false} CountRenderDouble(ps: seq<Piece>)
    requires forall i :: 0 <= i < |ps| ==> PlainPiece(ps[i])
    ensures CountChar(RenderDouble(ps), '{') == 2 * |Names(ps)|
    ensures CountChar(RenderDouble(ps), '}') == 2 * |Names(ps)|
  {
    if |ps| > 0 {
      CountRenderDouble(ps[1..]);
      var rest := RenderDouble(ps[1..]);
      match ps[0]
      case Lit(c) => {
        CountConcat([c], rest, '{');
        CountConcat([c], rest, '}');
      }
      case Field(name, _) => {
        assert '{' !in name && '}' !in name by {
          forall i | 0 <= i < |name| ensures name[i] != '{' && name[i] != '}' {
            assert name[i] !in "{}!:";
          }
        }
        assert RenderDouble(ps) == "{{" + name + "}}" + rest;
        CountField(name, rest, '{');
        CountField(name, rest, '}');
        BraceCounts();
      }
    }
  }

  /** A doubled field counts the braces around it and those after it. */
  lemma CountField(name: string, rest: string, c: char)
    requires c !in name
    ensures CountChar("{{" + name + "}}" + rest, c) == CountChar("{{", c) + CountChar("}}", c) + CountChar(rest, c)
  {
    assert "{{" + name + "}}" + rest == "{{" + (name + ("}}" + rest));
    CountConcat("{{", name + ("}}" + rest), c);
    CountConcat(name, "}}" + rest, c);
    CountConcat("}}", rest, c);
  }

  lemma BraceCounts()
    ensures CountChar("{{", '{') == 2 && CountChar("{{", '}') == 0
    ensures CountChar("}}", '{') == 0 && CountChar("}}", '}') == 2
  {
    assert "{{"[1..] == "{" && "}}"[1..] == "}";
    assert "{"[1..] == "" && "}"[1..] == "";
  }

  lemma {:induction false} CountConcat(a: string, b: string, c: char)
    ensures CountChar(a + b, c) == CountChar(a, c) + CountChar(b, c)
    decreases |a|
  {
    if |a| > 0 {
      assert (a + b)[0] == a[0];
      assert (a + b)[1..] == a[1..] + b;
      CountConcat(a[1..], b, c);
    } else {
      assert a + b == b;
    }
  }

  lemma {:induction false} OpenBraceHasDouble(ps: seq<Piece>)
    requires forall i :: 0 <= i < |ps| ==> PlainPiece(ps[i])
    requires '{' in RenderDouble(ps)
    ensures IsSubstring("{{", RenderDouble(ps))
  {
    var s := RenderDouble(ps);
    match ps[0]
    case Lit(c) => {
      var rest := RenderDouble(ps[1..]);
      assert s == [c] + rest;
      assert '{' in rest;
      OpenBraceHasDouble(ps[1..]);
      var i :| 0 <= i <= |rest| - 2 && rest[i..][..2] == "{{";
      assert s[i + 1..] == rest[i..];
    }
    case Field(_, _) => {
      assert s[0..][..2] == "{{";
    }
  }

  /** A template written with double braces prepares a formatter whose keys
      are the field names, in order, and whose template has nameless
      fields. */
  lemma FormatContextRender(ps: seq<Piece>)
    requires forall i :: 0 <= i < |ps| ==> PlainPiece(ps[i])
    ensures FormatContext(VStr(RenderDouble(ps))) == Success(Formatter(Skeleton(ps), Names(ps)))
  {
    var s := RenderDouble(ps);
    CountRenderDouble(ps);
    if '{' in s {
      OpenBraceHasDouble(ps);
    }
    CollapseOpen(ps);
    CollapseClose(ps);
    forall i | 0 <= i < |ps| ensures GoodPiece(ps[i]) {
      if ps[i].Field? {
        var name := ps[i].name;
        forall j | 0 <= j < |name| ensures name[j] != '{' && !IsTerminator(name[j]) {
          assert name[j] !in "{}!:";
        }
      }
    }
    ParseRender(ps);
  }

  /** Formatting the skeleton puts each argument in place of its field. */
  lemma {:induction false} PyFormatSkeleton(ps: seq<Piece>, args: seq<string>)
    requires forall i :: 0 <= i < |ps| ==> PlainPiece(ps[i])
    requires |args| == |Names(ps)|
    ensures PyFormat(Skeleton(ps), args) == Success(Fill(ps, args))
  {
    if |ps| > 0 {
      var rest := Skeleton(ps[1..]);
      match ps[0]
      case Lit(c) => {
        PyFormatSkeleton(ps[1..], args);
        assert Skeleton(ps) == [c] + rest;
        assert Skeleton(ps)[1..] == rest;
      }
      case Field(name, term) => {
        PyFormatSkeleton(ps[1..], args[1..]);
        var t := Skeleton(ps);
        assert t == "{}" + rest;
        assert FindChar(t, '}', 1) == 1;
        assert t[2..] == rest;
      }
    }
  }

  function ExamplePieces(): seq<Piece>
  {
    [Field("x.y", '}'), Lit('_'), Field("z", '}')]
  }

  function ExampleContext(): Val
  {
    VDict(map["x" := VDict(map["y" := VInt(10)]), "z" := VInt(1)])
  }

  lemma ExampleParse()
    ensures FormatContext(VStr("{{x.y}}_{{z}}")) == Success(Formatter("{}_{}", ["x.y", "z"]))
  {
    var ps := ExamplePieces();
    assert ps[1..][1..] == [Field("z", '}')];
    assert RenderDouble(ps[1..][1..]) == "{{z}}";
    assert RenderDouble(ps[1..]) == "_{{z}}";
    assert RenderDouble(ps) == "{{x.y}}_{{z}}";
    assert Skeleton(ps[1..][1..]) == "{}";
    assert Skeleton(ps[1..]) == "_{}";
    assert Skeleton(ps) == "{}_{}";
    assert Names(ps[1..][1..]) == ["z"];
    assert Names(ps[1..]) == ["z"];
    assert Names(ps) == ["x.y", "z"];
    forall i | 0 <= i < |ps| ensures PlainPiece(ps[i]) {
      if i == 0 {
        assert forall j :: 0 <= j < |"x.y"| ==> "x.y"[j] !in "{}!:";
      }
    }
    FormatContextRender(ps);
  }

  lemma ExampleLookup()
    ensures LookupAll(ExampleContext(), ["x.y", "z"]) == Success([VInt(10), VInt(1)])
  {
    ExampleGetNested();
    ExampleGetPlain();
    LookupTwo(ExampleContext(), "x.y", "z", VInt(10), VInt(1));
  }

  lemma ExampleGetNested()
    ensures GetRecursively(ExampleContext(), VStr("x.y"), None) == Success(VInt(10))
  {
    assert Join(["x", "y"], '.') == "x.y";
    SplitJoin(["x", "y"], '.');
    assert NonEmptyParts(["x", "y"]) == [VStr("x"), VStr("y")];
  }

  lemma ExampleGetPlain()
    ensures GetRecursively(ExampleContext(), VStr("z"), None) == Success(VInt(1))
  {
    SplitNoSep("z", '.');
    assert NonEmptyParts(["z"]) == [VStr("z")];
  }

  /** Two keys that are found give their two values. */
  lemma LookupTwo(context: Val, a: string, b: string, va: Val, vb: Val)
    requires GetRecursively(context, VStr(a), None) == Success(va)
    requires GetRecursively(context, VStr(b), None) == Success(vb)
    ensures LookupAll(context, [a, b]) == Success([va, vb])
  {
    assert [a, b][1..] == [b];
    assert [b][1..] == [];
    assert LookupAll(context, [b]) == Success([vb] + []);
    assert [vb] + [] == [vb];
    assert [va] + [vb] == [va, vb];
  }


  lemma ExampleFill()
    ensures PyFormat("{}_{}", ["10", "1"]) == Success("10_1")
  {
    var ps := ExamplePieces();
    assert ps[1..][1..] == [Field("z", '}')];
    assert Skeleton(ps[1..][1..]) == "{}";
    assert Skeleton(ps[1..]) == "_{}";
    assert Skeleton(ps) == "{}_{}";
    assert Names(ps[1..][1..]) == ["z"];
    assert Names(ps[1..]) == ["z"];
    assert Names(ps) == ["x.y", "z"];
    forall i | 0 <= i < |ps| ensures PlainPiece(ps[i]) {
      if i == 0 {
        assert forall j :: 0 <= j < |"x.y"| ==> "x.y"[j] !in "{}!:";
      }
    }
    var args := ["10", "1"];
    PyFormatSkeleton(ps, args);
    assert Fill(ps[1..][1..], args[1..]) == "1";
    assert Fill(ps[1..], args[1..]) == "_1";
    assert Fill(ps, args) == "10_1";
  }

  lemma ExampleStr()
    ensures ScalarStr(VInt(10)) == Some("10") && ScalarStr(VInt(1)) == Some("1")
  {
    assert DigitChar(0) == '0' && DigitChar(1) == '1';
    assert NatToDecimal(1) == ['1'];
    assert NatToDecimal(10) == NatToDecimal(1) + [DigitChar(0)];
    assert ['1'] + ['0'] == "10";
  }

  /** The documented example: the formatter `format_context("{{x.y}}_{{z}}")`
      prepares (`ExampleParse`) gives "10_1" on `{"x": {"y": 10}, "z": 1}`. */
  lemma FormatExample(pyStr: Val -> string)
    requires forall v :: ScalarStr(v).Some? ==> pyStr(v) == ScalarStr(v).value
    ensures Format(Formatter("{}_{}", ["x.y", "z"]), ExampleContext(), pyStr) == Success("10_1")
  {
    ExampleLookup();
    ExampleFill();
    ExampleStr();
    var f := Formatter("{}_{}", ["x.y", "z"]);
    var vals := [VInt(10), VInt(1)];
    assert pyStr(vals[0]) == "10";
    assert pyStr(vals[1]) == "1";
    var strs := Strs(vals, pyStr);
    assert strs == ["10", "1"];
    assert Format(f, ExampleContext(), pyStr) == PyFormat("{}_{}", strs);
  }
}
