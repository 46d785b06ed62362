// The graph structure: coordinate arrays with field names, error fields
// and a scale (lena/structures/graph.py, class `graph`).

module StructuresGraph {
  import opened Wrappers
  import opened Values
  import opened Strings

  // ------------------------------------------------------------------
  // Field names given as one string

  /** A comma or a whitespace character (ASCII whitespace; the wider
      Unicode whitespace of Python's `\s` is not modelled). */
  predicate IsSep(c: char)
  {
    c == ',' || c == ' ' || c == '\t' || c == '\n' || c == '\r' || c == '\U{000B}' || c == '\U{000C}'
  }

  /** A non-empty run of characters that are neither commas nor
      whitespace. */
  predicate IsToken(t: string)
  {
    |t| > 0 && forall j :: 0 <= j < |t| ==> !IsSep(t[j])
  }

  /** The length of the run of non-separators that starts the string. */
  function RunLength(s: string): (n: nat)
    ensures n <= |s|
    ensures forall j :: 0 <= j < n ==> !IsSep(s[j])
    ensures n < |s| ==> IsSep(s[n])
    decreases |s|
  {
    if |s| == 0 || IsSep(s[0]) then 0 else 1 + RunLength(s[1..])
  }

  /** `re.findall(r'[^,\s]+', s)`: the maximal runs of characters that
      are neither commas nor whitespace, in order. */
  function Tokens(s: string): (r: seq<string>)
    ensures forall i :: 0 <= i < |r| ==> IsToken(r[i])
    decreases |s|
  {
    if |s| == 0 then []
    else if IsSep(s[0]) then Tokens(s[1..])
    else
      var n := RunLength(s);
      [s[..n]] + Tokens(s[n..])
  }

  /** Separators in front are skipped. */
  lemma {:induction false} TokensSkip(seps: string, s: string)
    requires forall j :: 0 <= j < |seps| ==> IsSep(seps[j])
    ensures Tokens(seps + s) == Tokens(s)
    decreases |seps|
  {
    if |seps| > 0 {
      assert (seps + s)[1..] == seps[1..] + s;
      TokensSkip(seps[1..], s);
    } else {
      assert seps + s == s;
    }
  }

  lemma {:induction false} RunOfToken(t: string, s: string)
    requires IsToken(t) && (|s| == 0 || IsSep(s[0]))
    ensures RunLength(t + s) == |t|
    decreases |t|
  {
    if |t| > 1 {
      assert (t + s)[1..] == t[1..] + s;
      RunOfToken(t[1..], s);
    } else {
      assert (t + s)[1..] == s;
    }
  }

  /** A token followed by a separator or the end is the first token. */
  lemma TokensToken(t: string, s: string)
    requires IsToken(t) && (|s| == 0 || IsSep(s[0]))
    ensures Tokens(t + s) == [t] + Tokens(s)
  {
    RunOfToken(t, s);
    assert (t + s)[..|t|] == t && (t + s)[|t|..] == s;
  }

  /** Names joined by any non-empty run of separators (", " or " " or
      ",") are split back into the names. */
  lemma {:induction false} TokensJoin(names: seq<string>, sep: string)
    requires forall i :: 0 <= i < |names| ==> IsToken(names[i])
    requires |sep| > 0 && forall j :: 0 <= j < |sep| ==> IsSep(sep[j])
    ensures Tokens(JoinStr(names, sep)) == names
    decreases |names|
  {
    if |names| == 1 {
      TokensToken(names[0], "");
      assert names[0] + "" == names[0];
    } else if |names| > 1 {
      var rest := JoinStr(names[1..], sep);
      TokensJoin(names[1..], sep);
      TokensSkip(sep, rest);
      assert names[0] + sep + rest == names[0] + (sep + rest);
      TokensToken(names[0], sep + rest);
      assert names == [names[0]] + names[1..];
    }
  }

  // ------------------------------------------------------------------
  // Error fields

  /** An error field is named "error_" followed by its coordinate. */
  predicate IsErrorField(f: string)
  {
    StartsWith(f, "error_")
  }

  /** A parsed error field: its coordinate, the details after the
      coordinate's name, and the field's index. */
  datatype ParsedError = ParsedError(coord: string, tail: string, index: nat)

  /** No coordinate field comes after an error field. */
  predicate ErrorsLast(names: seq<string>)
  {
    forall i, j :: 0 <= i < j < |names| && IsErrorField(names[i]) ==> IsErrorField(names[j])
  }

  /** The error fields among the first *i* names, with their indices. */
  function ErrorsUpTo(names: seq<string>, i: nat): (r: seq<(string, nat)>)
    requires i <= |names|
    ensures |r| <= i
    ensures forall k :: 0 <= k < |r| ==> r[k].1 < i && names[r[k].1] == r[k].0 && IsErrorField(r[k].0)
  {
    if i == 0 then []
    else ErrorsUpTo(names, i - 1) + (if IsErrorField(names[i - 1]) then [(names[i - 1], i - 1)] else [])
  }

  /** The index of the last coordinate field among the first *i* names,
      or zero. */
  function LastCoordBefore(names: seq<string>, i: nat): (k: nat)
    requires i <= |names|
    ensures i > 0 ==> k < i
    ensures k > 0 ==> k < i && !IsErrorField(names[k])
  {
    if i == 0 then 0
    else if !IsErrorField(names[i - 1]) then i - 1
    else LastCoordBefore(names, i - 1)
  }

  /** `set(field_names[:last_coord_ind + 1])`. */
  ghost function CoordSet(names: seq<string>): set<string>
  {
    set j | 0 <= j <= LastCoordBefore(names, |names|) && j < |names| :: names[j]
  }

  /** The error's name after "error_" is the coordinate, or begins with
      the coordinate and an underscore. */
  predicate MatchesCoord(main: string, coord: string)
  {
    main == coord || StartsWith(main, coord + "_")
  }

  ghost function Matching(main: string, coords: set<string>): set<string>
  {
    set c | c in coords && MatchesCoord(main, c)
  }

  /** What follows the coordinate and its underscore. */
  function Tail(main: string, coord: string): string
    requires MatchesCoord(main, coord)
  {
    if |main| > |coord| then main[|coord| + 1..] else ""
  }

  /** One error field parsed: exactly one coordinate must match. */
  ghost function ParseError(field: string, index: nat, coords: set<string>): (r: Result<ParsedError>)
    requires IsErrorField(field)
    ensures r.Failure? ==> r.error == LenaValueError
  {
    var main := field[6..];
    var m := Matching(main, coords);
    if |m| == 0 then Failure(LenaValueError)
    else if |m| > 1 then Failure(LenaValueError)
    else
      var c :| c in m;
      SingletonIs(m, c);
      Success(ParsedError(c, Tail(main, c), index))
  }

  /** An error field parses exactly when one coordinate matches, and
      then into that coordinate, the tail after it and the field's index. */
  lemma ParseErrorIs(field: string, index: nat, coords: set<string>)
    requires IsErrorField(field)
    ensures var r := ParseError(field, index, coords);
            && (r.Success? <==> |Matching(field[6..], coords)| == 1)
            && (r.Success? ==> && Matching(field[6..], coords) == {r.value.coord}
                               && r.value.tail == Tail(field[6..], r.value.coord)
                               && r.value.index == index)
  {
    var m := Matching(field[6..], coords);
    if |m| == 1 {
      var r := ParseError(field, index, coords);
      assert r.value.coord in m;
      SingletonIs(m, r.value.coord);
    }
  }

  lemma SingletonIs<T>(m: set<T>, c: T)
    requires |m| == 1 && c in m
    ensures m == {c}
  {
    var rest := m - {c};
    assert m == rest + {c};
    assert |rest| == 0;
  }

  /** The error fields parsed in order; the first failure is raised. */
  ghost function ParseList(errs: seq<(string, nat)>, coords: set<string>): (r: Result<seq<ParsedError>>)
    requires forall k :: 0 <= k < |errs| ==> IsErrorField(errs[k].0)
    ensures r.Failure? ==> r.error == LenaValueError
    ensures r.Success? ==> |r.value| == |errs|
    decreases |errs|
  {
    if |errs| == 0 then Success([])
    else
      var ps :- ParseList(errs[..|errs| - 1], coords);
      var p :- ParseError(errs[|errs| - 1].0, errs[|errs| - 1].1, coords);
      Success(ps + [p])
  }

  /** The list parses exactly when every field parses, and then the
      *k*-th result is the *k*-th field's. */
  lemma {:induction false} ParseListAll(errs: seq<(string, nat)>, coords: set<string>)
    requires forall k :: 0 <= k < |errs| ==> IsErrorField(errs[k].0)
    ensures var r := ParseList(errs, coords);
            r.Success? <==> forall k :: 0 <= k < |errs| ==> ParseError(errs[k].0, errs[k].1, coords).Success?
    ensures var r := ParseList(errs, coords);
            r.Success? ==> forall k :: 0 <= k < |errs| ==> ParseError(errs[k].0, errs[k].1, coords) == Success(r.value[k])
    decreases |errs|
  {
    if |errs| > 0 {
      var init, last := errs[..|errs| - 1], errs[|errs| - 1];
      ParseListAll(init, coords);
      assert forall k :: 0 <= k < |init| ==> init[k] == errs[k];
      var ri, p := ParseList(init, coords), ParseError(last.0, last.1, coords);
      if ri.Success? && p.Success? {
        var all := ri.value + [p.value];
        assert ParseList(errs, coords) == Success(all);
        assert forall k :: 0 <= k < |init| ==> all[k] == ri.value[k];
      } else {
        assert ParseList(errs, coords).Failure?;
      }
    }
  }

  /** `_parse_error_names(field_names)`: error fields must follow all
      coordinate fields, and each must name exactly one coordinate. */
  ghost function ParseErrors(names: seq<string>): (r: Result<seq<ParsedError>>)
    ensures r.Failure? ==> r.error == LenaValueError
    ensures r.Success? ==> |r.value| <= |names|
  {
    if !ErrorsLast(names) then Failure(LenaValueError)
    else ParseList(ErrorsUpTo(names, |names|), CoordSet(names))
  }

  // ------------------------------------------------------------------
  // What a successful parse tells

  /** The index of the first error field at or after *i*, or the length. */
  lemma {:induction false} FirstErrorFrom(names: seq<string>, i: nat) returns (e: nat)
    requires i <= |names|
    requires forall j :: 0 <= j < i ==> !IsErrorField(names[j])
    ensures i <= e <= |names|
    ensures forall j :: 0 <= j < e ==> !IsErrorField(names[j])
    ensures e < |names| ==> IsErrorField(names[e])
    decreases |names| - i
  {
    if i == |names| || IsErrorField(names[i]) {
      e := i;
    } else {
      e := FirstErrorFrom(names, i + 1);
    }
  }

  /** With the error fields last, from the first of them on, the error
      fields are exactly the names in order. */
  lemma {:induction false} ErrorsUpToSuffix(names: seq<string>, e: nat, i: nat)
    requires e <= i <= |names|
    requires forall j :: 0 <= j < e ==> !IsErrorField(names[j])
    requires forall j :: e <= j < |names| ==> IsErrorField(names[j])
    ensures |ErrorsUpTo(names, i)| == i - e
    ensures forall k :: 0 <= k < i - e ==> ErrorsUpTo(names, i)[k] == (names[e + k], e + k)
    decreases i
  {
    if i == e {
      ErrorsUpToNone(names, i);
    } else {
      ErrorsUpToSuffix(names, e, i - 1);
    }
  }

  lemma {:induction false} ErrorsUpToNone(names: seq<string>, i: nat)
    requires i <= |names|
    requires forall j :: 0 <= j < i ==> !IsErrorField(names[j])
    ensures ErrorsUpTo(names, i) == []
    decreases i
  {
    if i > 0 {
      ErrorsUpToNone(names, i - 1);
    }
  }

  lemma {:induction false} LastCoordSuffix(names: seq<string>, e: nat, i: nat)
    requires 0 < e <= i <= |names|
    requires !IsErrorField(names[e - 1])
    requires forall j :: e <= j < |names| ==> IsErrorField(names[j])
    ensures LastCoordBefore(names, i) == e - 1
    decreases i
  {
    if i > e {
      LastCoordSuffix(names, e, i - 1);
    }
  }

  /** A field that begins with "error_" cannot be matched by its own
      name: what follows "error_" is shorter. */
  lemma NoSelfMatch(field: string)
    requires IsErrorField(field)
    ensures !MatchesCoord(field[6..], field)
  {
  }

  /** When every field is an error field, the first one has no
      coordinate to match: the only candidate is its own name. */
  lemma AllErrorsFail(names: seq<string>)
    requires |names| > 0 && ErrorsLast(names)
    requires forall j :: 0 <= j < |names| ==> IsErrorField(names[j])
    ensures ParseErrors(names).Failure?
  {
    ErrorsUpToSuffix(names, 0, |names|);
    LastCoordBefore0(names, |names|);
    var coords := CoordSet(names);
    ParseListAll(ErrorsUpTo(names, |names|), coords);
    assert coords == {names[0]};
    NoSelfMatch(names[0]);
    assert Matching(names[0][6..], coords) == {};
    var errs := ErrorsUpTo(names, |names|);
    assert errs[0] == (names[0], 0);
    ParseErrorIs(errs[0].0, errs[0].1, coords);
    assert ParseError(errs[0].0, errs[0].1, coords).Failure?;
  }

  /** A successful parse in terms of the first error field *e*: the
      coordinates are the names before it, and the *k*-th error field is
      parsed against them. */
  lemma ParsedAt(names: seq<string>, ps: seq<ParsedError>) returns (e: nat)
    requires ParseErrors(names) == Success(ps)
    requires |names| > 0
    ensures 0 < e == |names| - |ps|
    ensures forall j :: 0 <= j < e ==> !IsErrorField(names[j])
    ensures forall j :: e <= j < |names| ==> IsErrorField(names[j])
    ensures CoordSet(names) == set j | 0 <= j < e :: names[j]
    ensures forall k :: 0 <= k < |ps| ==> ParseError(names[e + k], e + k, CoordSet(names)) == Success(ps[k])
  {
    ParseErrorsParts(names, ps);
    e := FirstErrorFrom(names, 0);
    FirstIsCoord(names, e);
    CoordSetAt(names, e);
    ParsedFrom(names, ps, e);
  }

  /** The first field is a coordinate whenever the error fields parse. */
  lemma FirstIsCoord(names: seq<string>, e: nat)
    requires |names| > 0 && ParseErrors(names).Success?
    requires e <= |names| && forall j :: 0 <= j < e ==> !IsErrorField(names[j])
    requires e < |names| ==> IsErrorField(names[e])
    ensures e > 0
  {
    if e == 0 {
      // The first field is then an error field with no coordinate before
      // it, which the parse rejects; yet the parse succeeded.
      AllErrorsFail(names);
      assert false;
    }
  }

  /** The *k*-th parsed error is the field at *e + k*. */
  lemma ParsedFrom(names: seq<string>, ps: seq<ParsedError>, e: nat)
    requires e <= |names| && forall j :: 0 <= j < e ==> !IsErrorField(names[j])
    requires forall j :: e <= j < |names| ==> IsErrorField(names[j])
    requires var errs := ErrorsUpTo(names, |names|);
             |ps| == |errs| && forall k :: 0 <= k < |errs| ==> ParseError(errs[k].0, errs[k].1, CoordSet(names)) == Success(ps[k])
    ensures e == |names| - |ps|
    ensures forall k :: 0 <= k < |ps| ==> ParseError(names[e + k], e + k, CoordSet(names)) == Success(ps[k])
  {
    ErrorsUpToSuffix(names, e, |names|);
    var errs := ErrorsUpTo(names, |names|);
    forall k | 0 <= k < |ps|
      ensures ParseError(names[e + k], e + k, CoordSet(names)) == Success(ps[k])
    {
      assert errs[k] == (names[e + k], e + k);
    }
  }

  lemma ParseErrorsParts(names: seq<string>, ps: seq<ParsedError>)
    requires ParseErrors(names) == Success(ps)
    ensures ErrorsLast(names)
    ensures var errs := ErrorsUpTo(names, |names|);
            |ps| == |errs| && forall k :: 0 <= k < |errs| ==> ParseError(errs[k].0, errs[k].1, CoordSet(names)) == Success(ps[k])
  {
    ParseListAll(ErrorsUpTo(names, |names|), CoordSet(names));
  }

  /** With the error fields last from *e* on, the coordinates are the
      names before *e*. */
  lemma CoordSetAt(names: seq<string>, e: nat)
    requires 0 < e <= |names| && ErrorsLast(names)
    requires forall j :: 0 <= j < e ==> !IsErrorField(names[j])
    requires e < |names| ==> IsErrorField(names[e])
    ensures forall j :: e <= j < |names| ==> IsErrorField(names[j])
    ensures CoordSet(names) == set j | 0 <= j < e :: names[j]
  {
    LastCoordSuffix(names, e, |names|);
  }

  /** The fields are *dim* coordinates (at least one) followed by error
      fields, and *ps* lists those errors in order: the *k*-th is the
      field at index *dim + k*, whose name after "error_" is a coordinate
      alone or followed by an underscore and the tail, and matches no
      other coordinate. */
  predicate ErrorsParsed(names: seq<string>, dim: nat, ps: seq<ParsedError>)
  {
    && 0 < dim <= |names| && |ps| == |names| - dim
    && (forall j :: 0 <= j < dim ==> !IsErrorField(names[j]))
    && (forall j :: dim <= j < |names| ==> IsErrorField(names[j]))
    && (forall k :: 0 <= k < |ps| ==>
          && ps[k].index == dim + k
          && IsErrorField(names[ps[k].index])
          && ps[k].coord in names[..dim]
          && MatchesCoord(names[ps[k].index][6..], ps[k].coord)
          && ps[k].tail == Tail(names[ps[k].index][6..], ps[k].coord)
          && (forall j :: 0 <= j < dim && MatchesCoord(names[ps[k].index][6..], names[j]) ==> names[j] == ps[k].coord))
  }

  /** After a successful parse the fields are coordinates followed by
      their errors, as the parsed errors describe. */
  lemma ParsedShape(names: seq<string>, ps: seq<ParsedError>)
    requires ParseErrors(names) == Success(ps)
    requires |names| > 0
    ensures |ps| < |names| && ErrorsParsed(names, |names| - |ps|, ps)
  {
    var e := ParsedAt(names, ps);
    forall k | 0 <= k < |ps|
      ensures && ps[k].index == e + k
              && IsErrorField(names[ps[k].index])
              && ps[k].coord in names[..e]
              && MatchesCoord(names[ps[k].index][6..], ps[k].coord)
              && ps[k].tail == Tail(names[ps[k].index][6..], ps[k].coord)
              && (forall j :: 0 <= j < e && MatchesCoord(names[ps[k].index][6..], names[j]) ==> names[j] == ps[k].coord)
    {
      ParsedOne(names, e, e + k, ps[k]);
    }
    assert e == |names| - |ps|;
  }

  /** One error field parsed against the names before *e*. */
  lemma ParsedOne(names: seq<string>, e: nat, i: nat, p: ParsedError)
    requires e <= i < |names| && IsErrorField(names[i])
    requires ParseError(names[i], i, set j | 0 <= j < e :: names[j]) == Success(p)
    ensures p.index == i && p.coord in names[..e]
    ensures MatchesCoord(names[i][6..], p.coord) && p.tail == Tail(names[i][6..], p.coord)
    ensures forall j :: 0 <= j < e && MatchesCoord(names[i][6..], names[j]) ==> names[j] == p.coord
  {
    var coords := set j | 0 <= j < e :: names[j];
    ParseErrorIs(names[i], i, coords);
    var m := Matching(names[i][6..], coords);
    assert m == {p.coord};
    var j :| 0 <= j < e && names[j] == p.coord;
    assert names[..e][j] == p.coord;
    forall j | 0 <= j < e && MatchesCoord(names[i][6..], names[j])
      ensures names[j] == p.coord
    {
      assert names[j] in m;
    }
  }

  /** Conversely, fields that are coordinates followed by error fields,
      each naming exactly one coordinate, parse into those errors. */
  lemma ParseSucceeds(names: seq<string>, dim: nat, ps: seq<ParsedError>)
    requires ErrorsParsed(names, dim, ps)
    ensures ParseErrors(names) == Success(ps)
  {
    ErrorsUpToSuffix(names, dim, |names|);
    LastCoordSuffix(names, dim, |names|);
    var coords := CoordSet(names);
    assert coords == set j | 0 <= j < dim :: names[j];
    var errs := ErrorsUpTo(names, |names|);
    forall k | 0 <= k < |ps|
      ensures ParseError(errs[k].0, errs[k].1, coords) == Success(ps[k])
    {
      var main := names[dim + k][6..];
      var c := ps[k].coord;
      var i :| 0 <= i < dim && names[..dim][i] == c;
      assert names[i] == c;
      assert Matching(main, coords) == {c};
      ParseErrorIs(errs[k].0, errs[k].1, coords);
    }
    ParseListAll(errs, coords);
    var r := ParseList(errs, coords);
    assert r.Success?;
    assert r.value == ps;
  }

  /** The error fields parse into *ps* exactly when the fields are laid
      out as *ps* describes. */
  lemma ParseErrorsIff(names: seq<string>, ps: seq<ParsedError>)
    requires |names| > 0
    ensures ParseErrors(names) == Success(ps) <==> |ps| < |names| && ErrorsParsed(names, |names| - |ps|, ps)
  {
    if ParseErrors(names) == Success(ps) {
      ParsedShape(names, ps);
    }
    if |ps| < |names| && ErrorsParsed(names, |names| - |ps|, ps) {
      ParseSucceeds(names, |names| - |ps|, ps);
    }
  }

  lemma {:induction false} LastCoordBefore0(names: seq<string>, i: nat)
    requires i <= |names|
    requires forall j :: 0 <= j < |names| ==> IsErrorField(names[j])
    ensures LastCoordBefore(names, i) == 0
    decreases i
  {
    if i > 0 {
      LastCoordBefore0(names, i - 1);
    }
  }

  // ------------------------------------------------------------------
  // Parsing the error names, step by step

  /** The first loop of `_parse_error_names`: the error fields with their
      indices and the index of the last coordinate field; *ok* is false
      when a coordinate field follows an error field. */
  method CollectErrors(names: seq<string>) returns (ok: bool, errors: seq<(string, nat)>, lastCoordInd: nat)
    ensures ok <==> ErrorsLast(names)
    ensures ok ==> errors == ErrorsUpTo(names, |names|) && lastCoordInd == LastCoordBefore(names, |names|)
  {
    var inErrors := false;
    errors, lastCoordInd := [], 0;
    var i := 0;
    while i < |names|
      invariant 0 <= i <= |names|
      invariant inErrors <==> exists j :: 0 <= j < i && IsErrorField(names[j])
      invariant errors == ErrorsUpTo(names, i)
      invariant lastCoordInd == LastCoordBefore(names, i)
      invariant ErrorsLast(names[..i])
    {
      var field := names[i];
      if StartsWith(field, "error_") {
        inErrors := true;
        errors := errors + [(field, i)];
      } else {
        lastCoordInd := i;
        if inErrors {
          assert !ErrorsLast(names);
          return false, errors, lastCoordInd;
        }
      }
      i := i + 1;
    }
    assert names[..i] == names;
    return true, errors, lastCoordInd;
  }

  /** The inner loop of `_parse_error_names`: the coordinates that an
      error's name (after "error_") matches, each once, and the tail
      after the last of them. */
  method MatchCoords(main: string, coords: set<string>) returns (errCoords: seq<string>, tail: string)
    ensures Elements(errCoords) == Matching(main, coords)
    ensures |errCoords| == |Matching(main, coords)|
    ensures |errCoords| > 0 ==> MatchesCoord(main, errCoords[|errCoords| - 1])
                                && tail == Tail(main, errCoords[|errCoords| - 1])
  {
    errCoords, tail := [], "";
    var rest := coords;
    assert coords - rest == {};
    while rest != {}
      invariant rest <= coords
      invariant MatchedSoFar(main, coords - rest, errCoords, tail)
      decreases |rest|
    {
      var c :| c in rest;
      MatchingStep(main, coords, rest, c);
      if MatchesCoord(main, c) {
        MatchedMore(main, coords - rest, errCoords, tail, c);
        errCoords := errCoords + [c];
        tail := Tail(main, c);
      }
      rest := rest - {c};
    }
    assert coords - rest == coords;
  }

  /** The loop's state after looking at the coordinates *seen*: each
      match once, and the tail after the last. */
  ghost predicate MatchedSoFar(main: string, seen: set<string>, errCoords: seq<string>, tail: string)
  {
    && Elements(errCoords) == Matching(main, seen)
    && |errCoords| == |Matching(main, seen)|
    && (|errCoords| > 0 ==> MatchesCoord(main, errCoords[|errCoords| - 1])
                            && tail == Tail(main, errCoords[|errCoords| - 1]))
  }

  lemma MatchedMore(main: string, seen: set<string>, errCoords: seq<string>, tail: string, c: string)
    requires MatchedSoFar(main, seen, errCoords, tail)
    requires MatchesCoord(main, c) && c !in Matching(main, seen)
    ensures MatchedSoFar(main, seen + {c}, errCoords + [c], Tail(main, c))
  {
    ElementsSnoc(errCoords, c);
    assert Matching(main, seen + {c}) == Matching(main, seen) + {c};
  }

  /** Taking *c* out of the coordinates still to look at adds it to the
      matches when it matches, and nothing otherwise. */
  lemma MatchingStep(main: string, coords: set<string>, rest: set<string>, c: string)
    requires rest <= coords && c in rest
    ensures c !in Matching(main, coords - rest)
    ensures coords - (rest - {c}) == (coords - rest) + {c}
    ensures !MatchesCoord(main, c) ==> Matching(main, coords - (rest - {c})) == Matching(main, coords - rest)
  {
  }

  /** The strings in a sequence. */
  function Elements(s: seq<string>): (r: set<string>)
    ensures forall x :: x in r <==> x in s
  {
    set x | x in s
  }

  lemma ElementsSnoc(s: seq<string>, c: string)
    ensures Elements(s + [c]) == Elements(s) + {c}
  {
  }

  /** `_parse_error_names(field_names)`: the error fields are collected,
      then each is matched against the coordinates; none or several
      matches raise. */
  method ParseErrorNames(names: seq<string>) returns (r: Result<seq<ParsedError>>)
    ensures r == ParseErrors(names)
  {
    var ok, errors, lastCoordInd := CollectErrors(names);
    if !ok {
      return Failure(LenaValueError);
    }
    var upTo := if |names| == 0 then 0 else lastCoordInd + 1;
    var coords := set c | c in names[..upTo];
    assert coords == CoordSet(names) by {
      forall c | c in CoordSet(names) ensures c in coords {
        var j :| 0 <= j <= lastCoordInd && j < |names| && names[j] == c;
        assert names[..upTo][j] == c;
      }
    }
    var parsed: seq<ParsedError> := [];
    var k := 0;
    while k < |errors|
      invariant 0 <= k <= |errors|
      invariant ParseList(errors[..k], coords) == Success(parsed)
    {
      var (err, ind) := errors[k];
      var errCoords, tail := MatchCoords(err[6..], coords);
      if |errCoords| == 0 {
        ParseListFails(errors, k, coords);
        return Failure(LenaValueError);
      } else if |errCoords| > 1 {
        ParseListFails(errors, k, coords);
        return Failure(LenaValueError);
      }
      assert errCoords[0] in Elements(errCoords);
      SingletonIs(Matching(err[6..], coords), errCoords[0]);
      ParseListSnoc(errors, k, coords, parsed, ParsedError(errCoords[0], tail, ind));
      parsed := parsed + [ParsedError(errCoords[0], tail, ind)];
      k := k + 1;
    }
    assert errors[..k] == errors;
    return Success(parsed);
  }

  /** One more error field parsed extends the list. */
  lemma ParseListSnoc(errs: seq<(string, nat)>, k: nat, coords: set<string>, parsed: seq<ParsedError>, p: ParsedError)
    requires k < |errs| && forall j :: 0 <= j < |errs| ==> IsErrorField(errs[j].0)
    requires IsErrorField(errs[k].0)
    requires ParseList(errs[..k], coords) == Success(parsed)
    requires Matching(errs[k].0[6..], coords) == {p.coord}
    requires p.tail == Tail(errs[k].0[6..], p.coord) && p.index == errs[k].1
    ensures ParseList(errs[..k + 1], coords) == Success(parsed + [p])
  {
    assert errs[..k + 1][..k] == errs[..k];
    ParseErrorIs(errs[k].0, errs[k].1, coords);
    assert ParseError(errs[k].0, errs[k].1, coords) == Success(p);
  }

  /** An error field that does not match exactly one coordinate fails the
      whole list. */
  lemma ParseListFails(errs: seq<(string, nat)>, k: nat, coords: set<string>)
    requires k < |errs| && forall j :: 0 <= j < |errs| ==> IsErrorField(errs[j].0)
    requires IsErrorField(errs[k].0)
    requires |Matching(errs[k].0[6..], coords)| != 1
    ensures ParseList(errs, coords) == Failure(LenaValueError)
  {
    ParseListAll(errs, coords);
    ParseErrorIs(errs[k].0, errs[k].1, coords);
    assert ParseError(errs[k].0, errs[k].1, coords).Failure?;
  }

  // ------------------------------------------------------------------
  // The graph

  /** The *field_names* argument: a string, a tuple of names, or any
      other value. */
  datatype FieldNames = NamesStr(s: string) | NamesTuple(names: seq<string>) | NamesOther

  /** A graph: coordinate arrays, their field names, the scale, the
      parsed error fields and the dimension (the number of coordinates
      that are not errors). */
  datatype Graph = Graph(coords: seq<seq<Val>>, fieldNames: seq<string>, scale: Val,
                         parsedErrors: seq<ParsedError>, dim: nat)

  /** No name occurs twice. */
  predicate Unique(names: seq<string>)
  {
    forall i, j :: 0 <= i < j < |names| ==> names[i] != names[j]
  }

  /** `len(set(names)) == len(names)` exactly when no name repeats. */
  lemma {:induction false} UniqueCard(names: seq<string>)
    ensures |(set x | x in names)| <= |names|
    ensures |(set x | x in names)| == |names| <==> Unique(names)
    decreases |names|
  {
    if |names| > 0 {
      var init, last := names[..|names| - 1], names[|names| - 1];
      UniqueCard(init);
      assert names == init + [last];
      assert (set x | x in names) == (set x | x in init) + {last};
      if last in init {
        var i :| 0 <= i < |init| && init[i] == last;
        assert names[i] == names[|names| - 1];
        assert (set x | x in names) == (set x | x in init);
      } else {
        assert Unique(names) <==> Unique(init);
      }
    }
  }

  /** All coordinate arrays have the length of the first. */
  predicate EqualLengths(coords: seq<seq<Val>>)
  {
    forall i :: 0 <= i < |coords| ==> |coords[i]| == |coords[0]|
  }

  /** The names given as a string are split into its tokens; a tuple is
      taken as it is; anything else is a LenaTypeError. */
  function NamesOf(fieldNames: FieldNames): (r: Result<seq<string>>)
    ensures fieldNames.NamesStr? ==> r == Success(Tokens(fieldNames.s))
    ensures fieldNames.NamesTuple? ==> r == Success(fieldNames.names)
    ensures fieldNames.NamesOther? ==> r == Failure(LenaTypeError)
  {
    match fieldNames
    case NamesStr(s) => Success(Tokens(s))
    case NamesTuple(names) => Success(names)
    case NamesOther => Failure(LenaTypeError)
  }

  /** `graph(coords, field_names, scale)`: the coordinates must be a
      non-empty list of arrays of equal lengths, and the field names a
      string or a tuple. */
  ghost function MakeGraph(coords: seq<seq<Val>>, fieldNames: FieldNames, scale: Val): (r: Result<Graph>)
    ensures |coords| == 0 ==> r == Failure(LenaValueError)
    ensures |coords| > 0 && !EqualLengths(coords) ==> r == Failure(LenaValueError)
    ensures r.Success? ==> r.value.coords == coords && r.value.scale == scale
  {
    if |coords| == 0 then Failure(LenaValueError)
    else if !EqualLengths(coords) then Failure(LenaValueError)
    else
      var names :- NamesOf(fieldNames);
      GraphOf(coords, names, scale)
  }

  /** The rest of the constructor: as many field names as arrays, all
      distinct, and error fields that parse. */
  ghost function GraphOf(coords: seq<seq<Val>>, names: seq<string>, scale: Val): (r: Result<Graph>)
    ensures r.Failure? ==> r.error == LenaValueError
    ensures r.Success? <==> |names| == |coords| && Unique(names) && ParseErrors(names).Success?
    ensures r.Success? ==> r.value == Graph(coords, names, scale, ParseErrors(names).value, |names| - |ParseErrors(names).value|)
  {
    if |names| != |coords| then Failure(LenaValueError)
    else if !Unique(names) then Failure(LenaValueError)
    else
      var parsed :- ParseErrors(names);
      Success(Graph(coords, names, scale, parsed, |names| - |parsed|))
  }

  /** A graph as the constructor leaves it. */
  ghost predicate ValidGraph(g: Graph)
  {
    && |g.coords| > 0 && EqualLengths(g.coords)
    && |g.fieldNames| == |g.coords| && Unique(g.fieldNames)
    && ParseErrors(g.fieldNames) == Success(g.parsedErrors)
    && g.dim == |g.fieldNames| - |g.parsedErrors| && g.dim > 0
  }

  /** A constructed graph is valid: its first *dim* fields (at least one)
      are the coordinates and the rest are their errors, in order. */
  lemma MadeGraphValid(coords: seq<seq<Val>>, fieldNames: FieldNames, scale: Val)
    requires MakeGraph(coords, fieldNames, scale).Success?
    ensures var g := MakeGraph(coords, fieldNames, scale).value;
            && ValidGraph(g)
            && 1 <= g.dim <= |g.fieldNames|
            && (forall j :: 0 <= j < g.dim ==> !IsErrorField(g.fieldNames[j]))
            && (forall j :: g.dim <= j < |g.fieldNames| ==> IsErrorField(g.fieldNames[j]))
  {
    var g := MakeGraph(coords, fieldNames, scale).value;
    ParsedShape(g.fieldNames, g.parsedErrors);
  }

  /** Field names given as a string joined by commas and spaces make the
      same graph as the tuple of those names. */
  lemma NamesStrAsTuple(coords: seq<seq<Val>>, names: seq<string>, sep: string, scale: Val)
    requires forall i :: 0 <= i < |names| ==> IsToken(names[i])
    requires |sep| > 0 && forall j :: 0 <= j < |sep| ==> IsSep(sep[j])
    ensures MakeGraph(coords, NamesStr(JoinStr(names, sep)), scale) == MakeGraph(coords, NamesTuple(names), scale)
  {
    TokensJoin(names, sep);
  }

  /** The constructor's checks in their order: `len(coords[i])` against
      `len(coords[0])` for every later array, then the names, their count,
      their uniqueness and the error fields. */
  method NewGraph(coords: seq<seq<Val>>, fieldNames: FieldNames, scale: Val) returns (r: Result<Graph>)
    ensures r == MakeGraph(coords, fieldNames, scale)
  {
    if |coords| == 0 {
      return Failure(LenaValueError);
    }
    var ptLen := |coords[0]|;
    var i := 1;
    while i < |coords|
      invariant 1 <= i <= |coords|
      invariant forall j :: 0 <= j < i ==> |coords[j]| == ptLen
    {
      if |coords[i]| != ptLen {
        return Failure(LenaValueError);
      }
      i := i + 1;
    }
    assert EqualLengths(coords);
    var names;
    match fieldNames {
      case NamesStr(s) => names := Tokens(s);
      case NamesTuple(ns) => names := ns;
      case NamesOther => return Failure(LenaTypeError);
    }
    MakeGraphNames(coords, fieldNames, scale);
    r := GraphWithNames(coords, names, scale);
  }

  /** The checks of the field names: one per coordinate, no repeats, and
      error fields that parse. */
  method GraphWithNames(coords: seq<seq<Val>>, names: seq<string>, scale: Val) returns (r: Result<Graph>)
    ensures r == GraphOf(coords, names, scale)
  {
    if |names| != |coords| {
      return Failure(LenaValueError);
    }
    UniqueCard(names);
    if |(set x | x in names)| != |names| {
      return Failure(LenaValueError);
    }
    var parsed := ParseErrorNames(names);
    if parsed.Failure? {
      return Failure(parsed.error);
    }
    return Success(Graph(coords, names, scale, parsed.value, |names| - |parsed.value|));
  }

  /** Past the checks on the coordinates, the graph is built from the
      field names. */
  lemma MakeGraphNames(coords: seq<seq<Val>>, fieldNames: FieldNames, scale: Val)
    requires |coords| > 0 && EqualLengths(coords) && !fieldNames.NamesOther?
    ensures MakeGraph(coords, fieldNames, scale) == GraphOf(coords, NamesOf(fieldNames).value, scale)
  {
  }

  // ------------------------------------------------------------------
  // Points, error indices and the scale

  /** `zip(*coords)`: one tuple per point, holding that point's value in
      every coordinate array. */
  function Points(coords: seq<seq<Val>>): (r: seq<Val>)
    requires |coords| > 0 && EqualLengths(coords)
    ensures |r| == |coords[0]|
    ensures forall j :: 0 <= j < |r| ==> r[j].VTuple? && |r[j].items| == |coords|
  {
    seq(|coords[0]|, j requires 0 <= j < |coords[0]| =>
      VTuple(seq(|coords|, i requires 0 <= i < |coords| => coords[i][j])))
  }

  /** The *i*-th value of every point. */
  function Column(points: seq<Val>, i: nat): (r: seq<Val>)
    requires forall j :: 0 <= j < |points| ==> points[j].VTuple? && i < |points[j].items|
    ensures |r| == |points|
  {
    seq(|points|, j requires 0 <= j < |points| => points[j].items[i])
  }

  /** The points give back every coordinate array. */
  lemma PointsTranspose(coords: seq<seq<Val>>, i: nat)
    requires |coords| > 0 && EqualLengths(coords) && i < |coords|
    ensures Column(Points(coords), i) == coords[i]
  {
  }

  /** The absolute indices of the error fields of one coordinate, in
      order. */
  function ErrIndices(parsed: seq<ParsedError>, dim: nat, coordName: string): (r: seq<nat>)
    ensures forall k :: 0 <= k < |r| ==> dim <= r[k] < dim + |parsed|
    decreases |parsed|
  {
    if |parsed| == 0 then []
    else
      var init := parsed[..|parsed| - 1];
      ErrIndices(init, dim, coordName)
        + (if parsed[|parsed| - 1].coord == coordName then [dim + |parsed| - 1] else [])
  }

  predicate Increasing(s: seq<nat>)
  {
    forall k, l :: 0 <= k < l < |s| ==> s[k] < s[l]
  }

  /** The error indices are increasing. */
  lemma {:induction false} ErrIndicesIncreasing(parsed: seq<ParsedError>, dim: nat, coordName: string)
    ensures Increasing(ErrIndices(parsed, dim, coordName))
    decreases |parsed|
  {
    if |parsed| > 0 {
      var init := parsed[..|parsed| - 1];
      ErrIndicesIncreasing(init, dim, coordName);
      var r, ri := ErrIndices(parsed, dim, coordName), ErrIndices(init, dim, coordName);
      assert r == ri + (if parsed[|parsed| - 1].coord == coordName then [dim + |parsed| - 1] else []);
      forall k, l | 0 <= k < l < |r|
        ensures r[k] < r[l]
      {
        assert r[k] == ri[k] < dim + |init|;
        if l < |ri| {
          assert r[l] == ri[l];
        } else {
          assert r[l] == dim + |parsed| - 1;
        }
      }
    }
  }

  /** The error indices are exactly the indices of the fields that are
      errors of that coordinate. */
  lemma {:induction false} ErrIndicesMembers(parsed: seq<ParsedError>, dim: nat, coordName: string)
    ensures forall i :: i in ErrIndices(parsed, dim, coordName) <==>
                          dim <= i < dim + |parsed| && parsed[i - dim].coord == coordName
    decreases |parsed|
  {
    if |parsed| > 0 {
      var init := parsed[..|parsed| - 1];
      ErrIndicesMembers(init, dim, coordName);
      var r, ri := ErrIndices(parsed, dim, coordName), ErrIndices(init, dim, coordName);
      var last := dim + |parsed| - 1;
      assert r == ri + (if parsed[|parsed| - 1].coord == coordName then [last] else []);
      forall i
        ensures i in r <==> dim <= i < dim + |parsed| && parsed[i - dim].coord == coordName
      {
        if dim <= i < last {
          assert parsed[i - dim] == init[i - dim];
        }
      }
    }
  }

  /** `_get_err_indices(coord_name)`: the loop over the parsed errors. */
  method GetErrIndices(g: Graph, coordName: string) returns (r: seq<nat>)
    ensures r == ErrIndices(g.parsedErrors, g.dim, coordName)
  {
    r := [];
    var k := 0;
    while k < |g.parsedErrors|
      invariant 0 <= k <= |g.parsedErrors|
      invariant r == ErrIndices(g.parsedErrors[..k], g.dim, coordName)
    {
      assert g.parsedErrors[..k + 1][..k] == g.parsedErrors[..k];
      if g.parsedErrors[k].coord == coordName {
        r := r + [k + g.dim];
      }
      k := k + 1;
    }
    assert g.parsedErrors[..k] == g.parsedErrors;
  }

  /** What `scale(other)` does: report the scale, or rescale the listed
      coordinate arrays to the new scale. */
  datatype ScaleAction = CurrentScale(scale: Val) | Rescale(indices: seq<nat>, newScale: Val)

  /** `scale(other)`: without *other* the scale is returned; rescaling a
      graph whose scale is zero or unknown is a LenaValueError; otherwise
      the last coordinate and all its errors are rescaled. */
  function Scale(g: Graph, other: Val): (r: Result<ScaleAction>)
    requires 0 < g.dim <= |g.fieldNames|
    ensures other == VNone ==> r == Success(CurrentScale(g.scale))
    ensures other != VNone && !Truthy(g.scale) ==> r == Failure(LenaValueError)
    ensures other != VNone && Truthy(g.scale) ==> r.Success? && r.value.Rescale? && r.value.newScale == other
  {
    if other == VNone then Success(CurrentScale(g.scale))
    else if !Truthy(g.scale) then Failure(LenaValueError)
    else
      var last := g.dim - 1;
      Success(Rescale([last] + ErrIndices(g.parsedErrors, g.dim, g.fieldNames[last]), other))
  }

  /** The arrays rescaled are the last coordinate and exactly the error
      fields that belong to it. */
  lemma RescaledFields(g: Graph, other: Val)
    requires 0 < g.dim && g.dim + |g.parsedErrors| == |g.fieldNames|
    requires other != VNone && Truthy(g.scale)
    ensures var idx := Scale(g, other).value.indices;
            forall i :: i in idx <==> i == g.dim - 1 || (g.dim <= i < |g.fieldNames| && g.parsedErrors[i - g.dim].coord == g.fieldNames[g.dim - 1])
  {
    var name := g.fieldNames[g.dim - 1];
    ErrIndicesMembers(g.parsedErrors, g.dim, name);
    assert Scale(g, other).value.indices == [g.dim - 1] + ErrIndices(g.parsedErrors, g.dim, name);
  }

  /** Every value of an array as a number, mapped by *f* to a float; a
      value that is not a number is a TypeError. */
  function MapNumbers(xs: seq<Val>, f: real -> real): (r: Result<seq<Val>>)
    ensures r.Success? <==> forall j :: 0 <= j < |xs| ==> Number(xs[j]).Some?
    ensures r.Failure? ==> r.error == PyTypeError
    ensures r.Success? ==> |r.value| == |xs| && forall j :: 0 <= j < |xs| ==> r.value[j] == VReal(f(Number(xs[j]).value))
  {
    if |xs| == 0 then Success([])
    else if Number(xs[0]).None? then Failure(PyTypeError)
    else
      var rest :- MapNumbers(xs[1..], f);
      assert forall j :: 1 <= j < |xs| ==> xs[1..][j - 1] == xs[j];
      Success([VReal(f(Number(xs[0]).value))] + rest)
  }

  /** `list(map(partial(mul, k), arr))`: every value multiplied by *k*. */
  function MulAll(xs: seq<Val>, k: real): (r: Result<seq<Val>>)
  {
    MapNumbers(xs, x => k * x)
  }

  /** Mapping by *f* and then by an inverse of it gives the numbers back. */
  lemma MapNumbersInverse(xs: seq<Val>, f: real -> real, g: real -> real)
    requires forall x :: g(f(x)) == x
    requires MapNumbers(xs, f).Success?
    ensures MapNumbers(MapNumbers(xs, f).value, g).Success?
    ensures forall j :: 0 <= j < |xs| ==> Number(MapNumbers(MapNumbers(xs, f).value, g).value[j]) == Number(xs[j])
  {
    var ys := MapNumbers(xs, f).value;
    assert forall j :: 0 <= j < |ys| ==> Number(ys[j]).Some?;
  }

  /** The coordinate arrays after rescaling the listed ones by *k*. */
  function RescaleCoords(coords: seq<seq<Val>>, indices: seq<nat>, k: real): (r: Result<seq<seq<Val>>>)
    ensures r.Success? <==> forall i :: 0 <= i < |coords| && i in indices ==> MulAll(coords[i], k).Success?
    ensures r.Success? ==> |r.value| == |coords|
    ensures r.Success? ==> forall i :: 0 <= i < |coords| ==>
              r.value[i] == if i in indices then MulAll(coords[i], k).value else coords[i]
  {
    if forall i :: 0 <= i < |coords| && i in indices ==> MulAll(coords[i], k).Success? then
      Success(seq(|coords|, i requires 0 <= i < |coords| =>
                if i in indices then MulAll(coords[i], k).value else coords[i]))
    else Failure(PyTypeError)
  }

  /** `scale(other)` for a given *other*: a graph of zero or unknown scale
      is a LenaValueError; `float(other) / self._scale` needs two numbers
      (else TypeError); the last coordinate and its errors are multiplied
      by other/scale, every other field is kept, and the scale becomes
      *other*. */
  function ScaleTo(g: Graph, other: Val): (r: Result<Graph>)
    requires 0 < g.dim <= |g.fieldNames|
    requires other != VNone
    ensures !Truthy(g.scale) ==> r == Failure(LenaValueError)
    ensures Truthy(g.scale) && (Number(other).None? || Number(g.scale).None?) ==> r == Failure(PyTypeError)
    ensures r.Success? ==> Number(other).Some? && Number(g.scale).Some? && Number(g.scale).value != 0.0
    ensures r.Success? ==>
              var k := Number(other).value / Number(g.scale).value;
              var idx := Scale(g, other).value.indices;
              && r.value == g.(coords := r.value.coords, scale := other)
              && |r.value.coords| == |g.coords|
              && forall i :: 0 <= i < |g.coords| ==>
                   if i in idx then MulAll(g.coords[i], k).Success? && r.value.coords[i] == MulAll(g.coords[i], k).value
                   else r.value.coords[i] == g.coords[i]
  {
    var action :- Scale(g, other);
    if Number(other).None? || Number(g.scale).None? then Failure(PyTypeError)
    else
      var k := Number(other).value / Number(g.scale).value;
      var coords :- RescaleCoords(g.coords, action.indices, k);
      Success(g.(coords := coords, scale := other))
  }

  /** After rescaling, `scale()` returns *other*. */
  lemma ScaleToThenGet(g: Graph, other: Val)
    requires 0 < g.dim <= |g.fieldNames| && other != VNone
    requires ScaleTo(g, other).Success?
    ensures Scale(ScaleTo(g, other).value, VNone) == Success(CurrentScale(other))
  {
  }

  lemma MulInverse(x: real, k: real, k2: real)
    requires k * k2 == 1.0
    ensures k2 * (k * x) == x
  {
    calc {
      k2 * (k * x);
      (k * k2) * x;
      x;
    }
  }

  lemma RatioInverse(o: real, s: real)
    requires o != 0.0 && s != 0.0
    ensures (o / s) * (s / o) == 1.0
  {
  }

  /** Rescaling to a new non-zero scale and back to the old one gives every
      coordinate back as a number of the same value. */
  lemma ScaleToAndBack(g: Graph, other: Val)
    requires 0 < g.dim <= |g.fieldNames| && other != VNone
    requires ScaleTo(g, other).Success? && Truthy(other)
    ensures var g1 := ScaleTo(g, other).value;
            var g2 := ScaleTo(g1, g.scale);
            && g2.Success? && g2.value.scale == g.scale
            && forall i, j :: 0 <= i < |g.coords| && 0 <= j < |g.coords[i]| ==>
                 Number(g2.value.coords[i][j]) == Number(g.coords[i][j])
  {
    var g1 := ScaleTo(g, other).value;
    var s, o := Number(g.scale).value, Number(other).value;
    var k, k2 := o / s, s / o;
    RatioInverse(o, s);
    var idx := Scale(g, other).value.indices;
    assert Scale(g1, g.scale).value.indices == idx;
    var f, f2 := (x: real) => k * x, (x: real) => k2 * x;
    forall x: real
      ensures f2(f(x)) == x
    {
      MulInverse(x, k, k2);
    }
    forall i | 0 <= i < |g.coords| && i in idx
      ensures MulAll(g1.coords[i], k2).Success?
      ensures forall j :: 0 <= j < |g.coords[i]| ==> Number(MulAll(g1.coords[i], k2).value[j]) == Number(g.coords[i][j])
    {
      MapNumbersInverse(g.coords[i], f, f2);
    }
    assert Truthy(g1.scale) && Number(g1.scale) == Some(o) && Number(g.scale) == Some(s);
    var c2 := RescaleCoords(g1.coords, idx, k2);
    assert c2.Success?;
    var g2 := ScaleTo(g1, g.scale);
    assert g2 == Success(g1.(coords := c2.value, scale := g.scale));
  }

  /** The fields ("E", "time", "error_E_low", "error_time") have two
      coordinates: the first error is the low error of E, the second the
      error of time. */
  lemma ParseExample()
    ensures ParseErrors(["E", "time", "error_E_low", "error_time"])
            == Success([ParsedError("E", "low", 2), ParsedError("time", "", 3)])
  {
    var names := ["E", "time", "error_E_low", "error_time"];
    var ps := [ParsedError("E", "low", 2), ParsedError("time", "", 3)];
    assert names[2][6..] == "E_low" && names[3][6..] == "time";
    assert StartsWith("E_low", "E" + "_");
    assert "E_low"[..5][0] == 'E' && ("time" + "_")[0] == 't';
    assert !StartsWith("E_low", "time" + "_");
    assert !StartsWith("time", "E" + "_");
    assert names[..2] == ["E", "time"];
    ParseSucceeds(names, 2, ps);
  }

  /** A coordinate after an error field, and an error of no coordinate,
      are rejected. */
  lemma ParseFailureExamples()
    ensures ParseErrors(["x", "error_x", "y"]) == Failure(LenaValueError)
    ensures ParseErrors(["x", "error_y"]) == Failure(LenaValueError)
  {
    var n1 := ["x", "error_x", "y"];
    assert IsErrorField(n1[1]) && !IsErrorField(n1[2]);
    var n2 := ["x", "error_y"];
    assert IsErrorField(n2[1]) && !IsErrorField(n2[0]);
    ParseErrorsIff(n2, []);
  }
}
