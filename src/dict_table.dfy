// Tables of dictionaries with selection of rows and columns, and the
// element that builds them (lena/structures/dict_table.py).

module StructuresDictTable {
  import opened Wrappers
  import opened Values
  import opened ContextFunctions
  import opened ContextSets
  import opened FlowFunctions
  import Strings

  /** `dict_table(rows)`: a list of dictionaries. Two tables are equal
      when their rows are equal in the same order. */
  datatype Table = Table(rows: seq<Dict>)

  /** A selection: one value (a row, a column value or a list of them),
      or a table of several rows. */
  datatype Selected = Value(v: Val) | SubTable(table: Table)

  /** `len(table)`: the number of rows. */
  function Length(t: Table): (n: nat)
    ensures n == 0 <==> t.rows == []
  {
    |t.rows|
  }

  // ------------------------------------------------------------------
  // Columns

  /** One lookup per key, in order; the first failure is raised. */
  function LookupEach(get: Val -> Result<Val>, keys: seq<Val>): (r: Result<seq<Val>>)
    ensures r.Success? ==> |r.value| == |keys|
    decreases |keys|
  {
    if |keys| == 0 then Success([])
    else
      var vs :- LookupEach(get, keys[..|keys| - 1]);
      var v :- get(keys[|keys| - 1]);
      Success(vs + [v])
  }

  /** The lookups succeed exactly when each one does, and then the
      *i*-th value is the *i*-th key's. */
  lemma {:induction false} LookupEachAll(get: Val -> Result<Val>, keys: seq<Val>)
    ensures var r := LookupEach(get, keys);
            r.Success? <==> forall i :: 0 <= i < |keys| ==> get(keys[i]).Success?
    ensures var r := LookupEach(get, keys);
            r.Success? ==> forall i :: 0 <= i < |keys| ==> get(keys[i]) == Success(r.value[i])
    decreases |keys|
  {
    if |keys| > 0 {
      var init := keys[..|keys| - 1];
      LookupEachAll(get, init);
      assert forall i :: 0 <= i < |init| ==> init[i] == keys[i];
      var ri, g := LookupEach(get, init), get(keys[|keys| - 1]);
      if ri.Success? && g.Success? {
        var all := ri.value + [g.value];
        assert LookupEach(get, keys) == Success(all);
        assert forall i :: 0 <= i < |init| ==> all[i] == ri.value[i];
      } else {
        assert LookupEach(get, keys).Failure?;
      }
    }
  }

  /** `get_recursively(d, key)` as a lookup on one row. */
  function GetIn(row: Dict): Val -> Result<Val>
  {
    k => GetRecursively(VDict(row), k, None)
  }

  /** `get_recursively(d, key)` for every key of a tuple, in order; the
      first failure is raised. */
  function TupleValues(row: Dict, keys: seq<Val>): (r: Result<seq<Val>>)
    ensures r.Success? ==> |r.value| == |keys|
  {
    LookupEach(GetIn(row), keys)
  }

  /** The values are found exactly when every key is, and then the
      *i*-th value is the *i*-th key's. */
  lemma TupleValuesAll(row: Dict, keys: seq<Val>)
    ensures var r := TupleValues(row, keys);
            r.Success? <==> forall i :: 0 <= i < |keys| ==> GetRecursively(VDict(row), keys[i], None).Success?
    ensures var r := TupleValues(row, keys);
            r.Success? ==> forall i :: 0 <= i < |keys| ==> GetRecursively(VDict(row), keys[i], None) == Success(r.value[i])
  {
    LookupEachAll(GetIn(row), keys);
    assert forall i :: 0 <= i < |keys| ==> GetIn(row)(keys[i]) == GetRecursively(VDict(row), keys[i], None);
  }


  /** The value of a row under *key*: a tuple of keys gives a tuple of
      values. */
  function RowValue(row: Dict, key: Val): Result<Val>
  {
    if key.VTuple? then
      var vs :- TupleValues(row, key.items);
      Success(VTuple(vs))
    else GetRecursively(VDict(row), key, None)
  }

  /** The value of every row under the key, in row order. */
  function RowResults(rows: seq<Dict>, key: Val): (rs: seq<Result<Val>>)
    ensures |rs| == |rows| && forall i :: 0 <= i < |rows| ==> rs[i] == RowValue(rows[i], key)
  {
    seq(|rows|, i requires 0 <= i < |rows| => RowValue(rows[i], key))
  }

  /** The values found, in order: a LenaKeyError is skipped and any other
      error is raised. */
  function Keep(rs: seq<Result<Val>>): (r: Result<seq<Val>>)
    ensures r.Success? ==> |r.value| <= |rs|
    ensures r.Failure? ==> r.error != LenaKeyError
    decreases |rs|
  {
    if |rs| == 0 then Success([])
    else
      var vs :- Keep(rs[..|rs| - 1]);
      match rs[|rs| - 1]
      case Success(v) => Success(vs + [v])
      case Failure(e) => if e == LenaKeyError then Success(vs) else Failure(e)
  }

  /** The values of the rows that have the key, in row order; a row
      lacking it (LenaKeyError) is skipped, any other error is raised. */
  function ColumnValues(rows: seq<Dict>, key: Val): (r: Result<seq<Val>>)
    ensures r.Success? ==> |r.value| <= |rows|
    ensures r.Failure? ==> r.error != LenaKeyError
  {
    Keep(RowResults(rows, key))
  }

  /** `filter_columns(key)`: no row with the key is a LenaKeyError, one
      gives its value, several give the list of values. */
  function FilterColumns(t: Table, key: Val): (r: Result<Val>)
    ensures r.Failure? <==> ColumnValues(t.rows, key).Failure? || ColumnValues(t.rows, key).value == []
    ensures ColumnValues(t.rows, key) == Success([]) ==> r == Failure(LenaKeyError)
    ensures ColumnValues(t.rows, key).Success? && |ColumnValues(t.rows, key).value| == 1 ==>
              r == Success(ColumnValues(t.rows, key).value[0])
    ensures ColumnValues(t.rows, key).Success? && |ColumnValues(t.rows, key).value| > 1 ==>
              r == Success(VList(ColumnValues(t.rows, key).value))
  {
    var vs :- ColumnValues(t.rows, key);
    if |vs| == 0 then Failure(LenaKeyError)
    else if |vs| == 1 then Success(vs[0])
    else Success(VList(vs))
  }

  predicate Increasing(idx: seq<nat>)
  {
    forall k, l :: 0 <= k < l < |idx| ==> idx[k] < idx[l]
  }

  /** The values kept are the successes, in order, and every result
      left out is a LenaKeyError. */
  lemma {:induction false} KeepSources(rs: seq<Result<Val>>) returns (idx: seq<nat>)
    requires Keep(rs).Success?
    ensures var vs := Keep(rs).value;
            && |idx| == |vs| && Increasing(idx)
            && (forall k :: 0 <= k < |idx| ==> idx[k] < |rs| && rs[idx[k]] == Success(vs[k]))
            && (forall i :: 0 <= i < |rs| && i !in idx ==> rs[i] == Failure(LenaKeyError))
    decreases |rs|
  {
    if |rs| > 0 {
      var n := |rs| - 1;
      var init := rs[..n];
      KeepLast(rs);
      var prev := KeepSources(init);
      var pv := Keep(init).value;
      var vs := Keep(rs).value;
      if rs[n].Success? {
        idx := prev + [n];
      } else {
        idx := prev;
      }
      forall k | 0 <= k < |idx|
        ensures idx[k] < |rs| && rs[idx[k]] == Success(vs[k])
      {
        if k < |prev| {
          assert init[prev[k]] == rs[prev[k]];
        }
      }
      forall i | 0 <= i < |rs| && i !in idx
        ensures rs[i] == Failure(LenaKeyError)
      {
        if i < n {
          assert init[i] == rs[i];
        }
      }
    } else {
      idx := [];
    }
  }

  /** The last result is kept when it is a success, and skipped when it
      is a LenaKeyError. */
  lemma KeepLast(rs: seq<Result<Val>>)
    requires |rs| > 0 && Keep(rs).Success?
    ensures Keep(rs[..|rs| - 1]).Success?
    ensures rs[|rs| - 1].Failure? ==> rs[|rs| - 1].error == LenaKeyError
    ensures Keep(rs).value
            == Keep(rs[..|rs| - 1]).value + (if rs[|rs| - 1].Success? then [rs[|rs| - 1].value] else [])
  {
    var pv := Keep(rs[..|rs| - 1]).value;
    assert pv + [] == pv;
  }

  /** The column values come from the rows that have the key, in order,
      and every other row lacks it. */
  lemma ColumnSources(rows: seq<Dict>, key: Val) returns (idx: seq<nat>)
    requires ColumnValues(rows, key).Success?
    ensures var vs := ColumnValues(rows, key).value;
            && |idx| == |vs| && Increasing(idx)
            && (forall k :: 0 <= k < |idx| ==> idx[k] < |rows| && RowValue(rows[idx[k]], key) == Success(vs[k]))
            && (forall i :: 0 <= i < |rows| && i !in idx ==> RowValue(rows[i], key) == Failure(LenaKeyError))
  {
    idx := KeepSources(RowResults(rows, key));
  }

  /** Rows that lack the key do not change the column. */
  lemma ColumnSkips(rows: seq<Dict>, row: Dict, key: Val)
    requires RowValue(row, key) == Failure(LenaKeyError)
    ensures ColumnValues(rows + [row], key) == ColumnValues(rows, key)
  {
    var rs := RowResults(rows + [row], key);
    assert rs[..|rows|] == RowResults(rows, key);
  }

  /** Keeping the values of two runs of results one after the other. */
  lemma {:induction false} KeepAppend(a: seq<Result<Val>>, b: seq<Result<Val>>)
    requires Keep(a).Success? && Keep(b).Success?
    ensures Keep(a + b) == Success(Keep(a).value + Keep(b).value)
    decreases |b|
  {
    if |b| == 0 {
      assert a + b == a && Keep(b) == Success([]);
      assert Keep(a).value + [] == Keep(a).value;
    } else {
      var n := |b| - 1;
      var ab := a + b;
      assert ab[..|ab| - 1] == a + b[..n] && ab[|ab| - 1] == b[n];
      assert Keep(b[..n]).Success?;
      KeepAppend(a, b[..n]);
      var va, vb := Keep(a).value, Keep(b[..n]).value;
      if b[n].Success? {
        assert va + vb + [b[n].value] == va + (vb + [b[n].value]);
      }
    }
  }

  /** The column of two tables one after the other is the first's column
      followed by the second's. */
  lemma ColumnAppend(a: seq<Dict>, b: seq<Dict>, key: Val)
    requires ColumnValues(a, key).Success? && ColumnValues(b, key).Success?
    ensures ColumnValues(a + b, key) == Success(ColumnValues(a, key).value + ColumnValues(b, key).value)
  {
    assert RowResults(a + b, key) == RowResults(a, key) + RowResults(b, key);
    KeepAppend(RowResults(a, key), RowResults(b, key));
  }

  /** `get_tuple_recursively(d, keys)`: the loop over the keys. */
  method GetTupleRecursively(row: Dict, keys: seq<Val>) returns (r: Result<seq<Val>>)
    ensures r == TupleValues(row, keys)
  {
    var vals: seq<Val> := [];
    var i := 0;
    while i < |keys|
      invariant 0 <= i <= |keys|
      invariant TupleValues(row, keys[..i]) == Success(vals)
    {
      var v := GetRecursively(VDict(row), keys[i], None);
      TupleValuesStep(row, keys, i);
      if v.Failure? {
        TupleValuesPrefix(row, keys, i + 1);
        return Failure(v.error);
      }
      vals := vals + [v.value];
      i := i + 1;
    }
    assert keys[..i] == keys;
    return Success(vals);
  }

  /** One more key looked up. */
  lemma TupleValuesStep(row: Dict, keys: seq<Val>, i: nat)
    requires i < |keys| && TupleValues(row, keys[..i]).Success?
    ensures var v := GetRecursively(VDict(row), keys[i], None);
            TupleValues(row, keys[..i + 1])
              == if v.Success? then Success(TupleValues(row, keys[..i]).value + [v.value]) else Failure(v.error)
  {
    LookupEachStep(GetIn(row), keys, i);
  }

  lemma LookupEachStep(get: Val -> Result<Val>, keys: seq<Val>, i: nat)
    requires i < |keys| && LookupEach(get, keys[..i]).Success?
    ensures var v := get(keys[i]);
            LookupEach(get, keys[..i + 1])
              == if v.Success? then Success(LookupEach(get, keys[..i]).value + [v.value]) else Failure(v.error)
  {
    assert keys[..i + 1][..i] == keys[..i];
  }

  /** A failure among the first keys is the failure of all of them. */
  lemma TupleValuesPrefix(row: Dict, keys: seq<Val>, k: nat)
    requires k <= |keys| && TupleValues(row, keys[..k]).Failure?
    ensures TupleValues(row, keys) == TupleValues(row, keys[..k])
  {
    LookupEachPrefix(GetIn(row), keys, k);
  }

  lemma {:induction false} LookupEachPrefix(get: Val -> Result<Val>, keys: seq<Val>, k: nat)
    requires k <= |keys| && LookupEach(get, keys[..k]).Failure?
    ensures LookupEach(get, keys) == LookupEach(get, keys[..k])
    decreases |keys| - k
  {
    if k < |keys| {
      assert keys[..k + 1][..k] == keys[..k];
      LookupEachPrefix(get, keys, k + 1);
    } else {
      assert keys[..k] == keys;
    }
  }

  /** `filter_columns(key)`: the loop over the rows. */
  method FilterColumnsOf(t: Table, key: Val) returns (r: Result<Val>)
    ensures r == FilterColumns(t, key)
  {
    var values := CollectColumn(t.rows, key);
    if values.Failure? {
      return Failure(values.error);
    }
    if |values.value| == 0 {
      return Failure(LenaKeyError);
    } else if |values.value| == 1 {
      return Success(values.value[0]);
    }
    return Success(VList(values.value));
  }

  /** The values of the rows under the key, skipping the rows that lack
      it. */
  method CollectColumn(rows: seq<Dict>, key: Val) returns (r: Result<seq<Val>>)
    ensures r == ColumnValues(rows, key)
  {
    ghost var rs := RowResults(rows, key);
    var values: seq<Val> := [];
    var i := 0;
    while i < |rows|
      invariant 0 <= i <= |rows|
      invariant Keep(rs[..i]) == Success(values)
    {
      var d := rows[i];
      assert rs[..i + 1][..i] == rs[..i];
      var val: Result<Val>;
      if key.VTuple? {
        var vs := GetTupleRecursively(d, key.items);
        val := if vs.Success? then Success(VTuple(vs.value)) else Failure(vs.error);
      } else {
        val := GetRecursively(VDict(d), key, None);
      }
      assert val == rs[i];
      if val.Success? {
        values := values + [val.value];
      } else if val.error != LenaKeyError {
        KeepPrefix(rs, i + 1);
        return Failure(val.error);
      }
      i := i + 1;
    }
    assert rs[..i] == rs;
    return Success(values);
  }

  /** A failure among the first results is the failure of all of them. */
  lemma {:induction false} KeepPrefix(rs: seq<Result<Val>>, k: nat)
    requires k <= |rs| && Keep(rs[..k]).Failure?
    ensures Keep(rs) == Keep(rs[..k])
    decreases |rs| - k
  {
    if k < |rs| {
      assert rs[..k + 1][..k] == rs[..k];
      KeepPrefix(rs, k + 1);
    } else {
      assert rs[..k] == rs;
    }
  }

  // ------------------------------------------------------------------
  // Rows

  /** `contains(d, item)`; an item that is not a string has no `split`. */
  function RowContains(row: Dict, item: Val): Result<bool>
  {
    if item.VStr? then Contains(row, item.s) else Failure(PyAttributeError)
  }

  /** The rows that contain the item, in order; the first error is
      raised. */
  function RowsWith(rows: seq<Dict>, item: Val): (r: Result<seq<Dict>>)
    ensures r.Success? ==> |r.value| <= |rows|
    ensures r.Success? <==> forall i :: 0 <= i < |rows| ==> RowContains(rows[i], item).Success?
    decreases |rows|
  {
    if |rows| == 0 then Success([])
    else
      var init := rows[..|rows| - 1];
      var slice :- RowsWith(init, item);
      var c :- RowContains(rows[|rows| - 1], item);
      Success(if c then slice + [rows[|rows| - 1]] else slice)
  }

  /** Only rows of the table that contain the item are selected. */
  lemma {:induction false} RowsWithSound(rows: seq<Dict>, item: Val)
    requires RowsWith(rows, item).Success?
    ensures var sel := RowsWith(rows, item).value;
            forall k :: 0 <= k < |sel| ==> sel[k] in rows && RowContains(sel[k], item) == Success(true)
    decreases |rows|
  {
    if |rows| > 0 {
      var init := rows[..|rows| - 1];
      RowsWithSound(init, item);
      assert forall x :: x in init ==> x in rows;
    }
  }

  /** Selecting from one more row. */
  lemma RowsWithSnoc(rows: seq<Dict>, row: Dict, item: Val)
    ensures RowsWith(rows + [row], item) ==
              match RowsWith(rows, item)
              case Failure(e) => Failure(e)
              case Success(slice) =>
                match RowContains(row, item)
                case Failure(e) => Failure(e)
                case Success(c) => Success(if c then slice + [row] else slice)
  {
    var all := rows + [row];
    assert all[..|all| - 1] == rows && all[|all| - 1] == row;
  }

  /** Every row that contains the item is selected. */
  lemma {:induction false} RowsWithAll(rows: seq<Dict>, item: Val)
    requires RowsWith(rows, item).Success?
    ensures forall i :: 0 <= i < |rows| && RowContains(rows[i], item) == Success(true) ==> rows[i] in RowsWith(rows, item).value
    decreases |rows|
  {
    if |rows| > 0 {
      var init := rows[..|rows| - 1];
      RowsWithAll(init, item);
      assert forall i :: 0 <= i < |init| ==> init[i] == rows[i];
    }
  }

  /** `filter_rows(item)`: no row containing the item is a LenaKeyError,
      one gives that row, several give the table of them. */
  function FilterRows(t: Table, item: Val): (r: Result<Selected>)
    ensures RowsWith(t.rows, item) == Success([]) ==> r == Failure(LenaKeyError)
    ensures RowsWith(t.rows, item).Success? && |RowsWith(t.rows, item).value| == 1 ==>
              r == Success(Value(VDict(RowsWith(t.rows, item).value[0])))
    ensures r.Success? && r.value.SubTable? ==>
              && RowsWith(t.rows, item).Success?
              && 2 <= |r.value.table.rows| <= |t.rows|
              && r.value.table.rows == RowsWith(t.rows, item).value
    ensures RowsWith(t.rows, item).Failure? ==> r == Failure(RowsWith(t.rows, item).error)
  {
    var slice :- RowsWith(t.rows, item);
    if |slice| == 0 then Failure(LenaKeyError)
    else if |slice| == 1 then Success(Value(VDict(slice[0])))
    else Success(SubTable(Table(slice)))
  }

  /** `filter_rows(item)`: the loop over the rows. */
  method FilterRowsOf(t: Table, item: Val) returns (r: Result<Selected>)
    ensures r == FilterRows(t, item)
  {
    var slice := SelectRows(t.rows, item);
    if slice.Failure? {
      return Failure(slice.error);
    }
    if |slice.value| == 0 {
      return Failure(LenaKeyError);
    } else if |slice.value| == 1 {
      return Success(Value(VDict(slice.value[0])));
    }
    return Success(SubTable(Table(slice.value)));
  }

  /** The rows that contain the item. */
  method SelectRows(rows: seq<Dict>, item: Val) returns (r: Result<seq<Dict>>)
    ensures r == RowsWith(rows, item)
  {
    var slice: seq<Dict> := [];
    var i := 0;
    while i < |rows|
      invariant 0 <= i <= |rows|
      invariant RowsWith(rows[..i], item) == Success(slice)
    {
      assert rows[..i + 1][..i] == rows[..i];
      var c := RowContains(rows[i], item);
      if c.Failure? {
        RowsWithPrefix(rows, item, i + 1);
        return Failure(c.error);
      }
      if c.value {
        slice := slice + [rows[i]];
      }
      i := i + 1;
    }
    assert rows[..i] == rows;
    return Success(slice);
  }

  /** A failure among the first rows is the failure of the selection. */
  lemma {:induction false} RowsWithPrefix(rows: seq<Dict>, item: Val, k: nat)
    requires k <= |rows| && RowsWith(rows[..k], item).Failure?
    ensures RowsWith(rows, item) == RowsWith(rows[..k], item)
    decreases |rows| - k
  {
    if k < |rows| {
      assert rows[..k + 1][..k] == rows[..k];
      RowsWithPrefix(rows, item, k + 1);
    } else {
      assert rows[..k] == rows;
    }
  }

  /** `table[key]`: a tuple of keys selects columns; any other key selects
      a column if some row has it, and otherwise selects rows. */
  function GetItem(t: Table, key: Val): (r: Result<Selected>)
    ensures key.VTuple? ==> r == (match FilterColumns(t, key) case Success(v) => Success(Value(v)) case Failure(e) => Failure(e))
    ensures !key.VTuple? && FilterColumns(t, key).Success? ==> r == Success(Value(FilterColumns(t, key).value))
    ensures !key.VTuple? && FilterColumns(t, key) == Failure(LenaKeyError) ==> r == FilterRows(t, key)
  {
    if key.VTuple? then
      var v :- FilterColumns(t, key);
      Success(Value(v))
    else
      match FilterColumns(t, key)
      case Success(v) => Success(Value(v))
      case Failure(e) => if e == LenaKeyError then FilterRows(t, key) else Failure(e)
  }

  /** A key without a dot looks up that key of the row alone. */
  lemma PlainKey(row: Dict, s: string)
    requires s != "" && '.' !in s
    ensures RowValue(row, VStr(s)) == if s in row then Success(row[s]) else Failure(LenaKeyError)
  {
    Strings.SplitNoSep(s, '.');
    assert NonEmptyParts([s]) == [VStr(s)];
  }

  /** The example table of two detectors: the key "mean" gives the
      column of both means, and a key no row has is looked up among the
      rows' keys instead. */
  lemma GetItemExample(fd: Dict, nd: Dict)
    requires fd == map["detector" := VStr("FD"), "mean" := VInt(3)]
    requires nd == map["detector" := VStr("ND"), "mean" := VReal(2.5)]
    ensures GetItem(Table([fd, nd]), VStr("mean")) == Success(Value(VList([VInt(3), VReal(2.5)])))
  {
    PlainKey(fd, "mean");
    PlainKey(nd, "mean");
    var rs := RowResults([fd, nd], VStr("mean"));
    assert rs == [Success(VInt(3)), Success(VReal(2.5))];
    var one := [Success(VInt(3))];
    assert rs[..1] == one && one[..0] == [];
    assert Keep(one[..0]) == Success([]);
    assert one[|one| - 1] == Success(VInt(3));
    assert [] + [VInt(3)] == [VInt(3)];
    assert Keep(one) == Success([VInt(3)]);
    assert rs[..|rs| - 1] == one && rs[|rs| - 1] == Success(VReal(2.5));
    assert [VInt(3)] + [VReal(2.5)] == [VInt(3), VReal(2.5)];
    assert Keep(rs) == Success([VInt(3), VReal(2.5)]);
    assert ColumnValues([fd, nd], VStr("mean")) == Success([VInt(3), VReal(2.5)]);
    assert FilterColumns(Table([fd, nd]), VStr("mean")) == Success(VList([VInt(3), VReal(2.5)]));
  }

  /** An item "a.b" whose key *a* holds a string: it has no value of its
      own in the row (a string cannot be descended into), and the row
      contains it exactly when that string is *b*. */
  lemma DottedItem(row: Dict, a: string, b: string)
    requires a != "" && b != "" && '.' !in a && '.' !in b
    requires a in row && row[a].VStr?
    ensures RowValue(row, VStr(a + "." + b)) == Failure(LenaKeyError)
    ensures RowContains(row, VStr(a + "." + b)) == Success(row[a].s == b)
  {
    var s := a + "." + b;
    assert s == Strings.Join([a, b], '.');
    Strings.SplitJoin([a, b], '.');
    assert [a, b][1..] == [b] && [b][1..] == [];
    assert NonEmptyParts([b]) == [VStr(b)] + NonEmptyParts([]);
    assert NonEmptyParts([a, b]) == [VStr(a)] + NonEmptyParts([b]);
    var levels := [a, b];
    assert levels[..1] == [a] && [a][1..] == [];
    assert WalkKeys(VDict(row), [a]) == Success(Some(row[a]));
  }

  /** The example table of two detectors ("detector.FD" in the
      documentation): an item "key.name" has no value in any row, so it
      selects the one row whose key holds that name. */
  lemma SelectRowExample(key: string, name: string, other: string, fd: Dict, nd: Dict)
    requires key != "" && name != "" && '.' !in key && '.' !in name && other != name && key != "mean"
    requires fd == map[key := VStr(name), "mean" := VInt(3)]
    requires nd == map[key := VStr(other), "mean" := VReal(2.5)]
    ensures GetItem(Table([fd, nd]), VStr(key + "." + name)) == Success(Value(VDict(fd)))
  {
    var item := VStr(key + "." + name);
    DottedItem(fd, key, name);
    DottedItem(nd, key, name);
    NoColumn([fd, nd], item);
    assert [fd, nd][..1] == [fd] && [fd][..0] == [];
    RowsWithSnoc([], fd, item);
    RowsWithSnoc([fd], nd, item);
    assert [] + [fd] == [fd] && [fd] + [nd] == [fd, nd];
  }

  /** No row having a value under the key gives an empty column, so
      that the key does not select columns. */
  lemma NoColumn(rows: seq<Dict>, key: Val)
    requires forall i :: 0 <= i < |rows| ==> RowValue(rows[i], key) == Failure(LenaKeyError)
    ensures ColumnValues(rows, key) == Success([])
    ensures FilterColumns(Table(rows), key) == Failure(LenaKeyError)
  {
    KeepAllMissing(RowResults(rows, key));
  }

  lemma {:induction false} KeepAllMissing(rs: seq<Result<Val>>)
    requires forall i :: 0 <= i < |rs| ==> rs[i] == Failure(LenaKeyError)
    ensures Keep(rs) == Success([])
    decreases |rs|
  {
    if |rs| > 0 {
      KeepAllMissing(rs[..|rs| - 1]);
    }
  }

  // ------------------------------------------------------------------
  // The element

  /** Dictionaries as values. */
  function AsVals(ds: seq<Dict>): (r: seq<Val>)
    ensures |r| == |ds| && forall i :: 0 <= i < |ds| ==> r[i] == VDict(ds[i])
  {
    seq(|ds|, i requires 0 <= i < |ds| => VDict(ds[i]))
  }

  /** `DictTable()`: the rows filled (each updated with its context) and
      their contexts. */
  class DictTable {
    var rows: seq<Dict>
    var contexts: seq<Dict>

    /** Every row holds its own context. */
    ghost predicate Valid()
      reads this
    {
      |rows| == |contexts| && forall i :: 0 <= i < |rows| ==> Contained(contexts[i], rows[i])
    }

    constructor ()
      ensures Valid() && rows == [] && contexts == []
    {
      rows, contexts := [], [];
    }

    /** `fill(value)`: the data part must be a dictionary (else
        LenaValueError); it is updated recursively with the context and
        appended, and the context is kept beside it. */
    method Fill(value: Val) returns (r: Result<()>)
      requires Valid()
      modifies this
      ensures Valid()
      ensures !GetData(value).VDict? ==> r == Failure(LenaValueError) && rows == old(rows) && contexts == old(contexts)
      ensures GetData(value).VDict? ==>
                && r.Success?
                && rows == old(rows) + [Merge(GetData(value).m, GetContext(value))]
                && contexts == old(contexts) + [GetContext(value)]
    {
      var (data, context) := GetDataContext(value);
      if !data.VDict? {
        return Failure(LenaValueError);
      }
      var row := Merge(data.m, context);
      MergeContainsOther(data.m, context);
      rows := rows + [row];
      contexts := contexts + [context];
      return Success(());
    }

    /** `compute()`: the table of the rows, with the intersection of all
        contexts, which every row holds. */
    method Compute() returns (table: Table, context: Dict)
      requires Valid()
      ensures table == Table(rows)
      ensures Intersection(AsVals(contexts), map[]) == Success(context)
      ensures forall i :: 0 <= i < |rows| ==> Contained(context, contexts[i]) && Contained(context, rows[i])
    {
      var cs := AsVals(contexts);
      var inter := Intersection(cs, map[]);
      context := inter.value;
      table := Table(rows);
      forall i | 0 <= i < |rows|
        ensures Contained(context, contexts[i]) && Contained(context, rows[i])
      {
        IntersectionContainedInAll(cs, map[], i);
        assert cs[i] == VDict(contexts[i]);
        ContainedTrans(context, contexts[i], rows[i]);
      }
    }

    /** `reset()`: no rows and no contexts. */
    method Reset()
      modifies this
      ensures Valid() && rows == [] && contexts == []
    {
      rows, contexts := [], [];
    }
  }

  /** After a reset, `compute` gives an empty table with an empty
      context. */
  method ResetComputeExample(value: Val) returns (table: Table, context: Dict)
    ensures table == Table([]) && context == map[]
  {
    var d := new DictTable();
    var _ := d.Fill(value);
    d.Reset();
    table, context := d.Compute();
  }
}
