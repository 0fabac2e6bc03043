/**
  `mapOneColumn` of `src/mapOneColumn.ts`: the value at one column index of
  every row, where a row's columns are its values in `Object.values` order.
 */
module MapOneColumn {
  import opened Wrappers
  import opened Values
  import opened Errors

  /**
    One row's value at `index`. An index above the last one throws
    `NonExistentColumnIndexError(index, last)`; a negative index passes
    that check and reads `undefined`, as an out-of-range array read does.
   */
  function Pick(values: seq<Value>, index: int): (r: Result<Value, Error>)
    ensures r.Err? <==> index > |values| - 1
    ensures r.Err? ==> r.error == NonExistentColumnIndex(index, |values| - 1)
    ensures 0 <= index < |values| ==> r == Ok(values[index])
    ensures index < 0 ==> r == Ok(Undefined)
  {
    if |values| - 1 < index then Err(NonExistentColumnIndex(index, |values| - 1))
    else if index < 0 then Ok(Undefined)
    else Ok(values[index])
  }

  /**
    `rows.map(...)`: either every row yields its value, in row order, or the
    first row that fails decides the error.
   */
  function MapOneColumn(rows: seq<Row>, index: int): (r: Result<seq<Value>, Error>)
    ensures r.Ok? <==> forall i :: 0 <= i < |rows| ==> Pick(rows[i].Values(), index).Ok?
    ensures r.Ok? ==> |r.value| == |rows|
    ensures r.Ok? ==> forall i :: 0 <= i < |rows| ==> Pick(rows[i].Values(), index) == Ok(r.value[i])
    ensures r.Err? ==> exists i :: (0 <= i < |rows| && Pick(rows[i].Values(), index) == Err(r.error)
      && forall j :: 0 <= j < i ==> Pick(rows[j].Values(), index).Ok?)
    decreases |rows|
  {
    if |rows| == 0 then Ok([])
    else match Pick(rows[0].Values(), index)
      case Err(e) => Err(e)
      case Ok(v) =>
        match MapOneColumn(rows[1..], index)
        case Err(e) =>
          TailFailure(rows, index, e);
          Err(e)
        case Ok(vs) => Ok([v] + vs)
  }

  /** A failure in the tail is a failure of the whole list, one row further on. */
  lemma {:induction false} TailFailure(rows: seq<Row>, index: int, e: Error)
    requires |rows| > 0 && Pick(rows[0].Values(), index).Ok?
    requires exists i :: (0 <= i < |rows[1..]| && Pick(rows[1..][i].Values(), index) == Err(e)
      && forall j :: 0 <= j < i ==> Pick(rows[1..][j].Values(), index).Ok?)
    ensures exists i :: (0 <= i < |rows| && Pick(rows[i].Values(), index) == Err(e)
      && forall j :: 0 <= j < i ==> Pick(rows[j].Values(), index).Ok?)
  {
    var i :| 0 <= i < |rows[1..]| && Pick(rows[1..][i].Values(), index) == Err(e)
      && forall j :: 0 <= j < i ==> Pick(rows[1..][j].Values(), index).Ok?;
    assert Pick(rows[i + 1].Values(), index) == Err(e);
    forall j | 0 <= j < i + 1
      ensures Pick(rows[j].Values(), index).Ok?
    {
      if j > 0 {
        assert rows[j] == rows[1..][j - 1];
      }
    }
  }

  /** The rows of the first example: three columns each. */
  function ExampleRows(): seq<Row> {
    [Row([("id", Int(42)), ("name", Str("row 42")), ("date", Str("now"))]),
     Row([("id", Int(666)), ("name", Str("row 666")), ("date", Str("now"))])]
  }

  /** Column 1 of the example rows is their names; no rows give no values; column 3 does not exist. */
  lemma {:induction false} ExampleColumns()
    ensures MapOneColumn(ExampleRows(), 1) == Ok([Str("row 42"), Str("row 666")])
    ensures MapOneColumn([], 0) == Ok([])
    ensures MapOneColumn(ExampleRows(), 3) == Err(NonExistentColumnIndex(3, 2))
  {
    var rows := ExampleRows();
    assert rows[0].Values() == [Int(42), Str("row 42"), Str("now")];
    assert rows[1].Values() == [Int(666), Str("row 666"), Str("now")];
    assert rows[1..] == [rows[1]];
    assert rows[1..][1..] == [];
    assert MapOneColumn(rows[1..][1..], 1) == Ok([]);
    assert [Str("row 666")] + [] == [Str("row 666")];
    assert MapOneColumn(rows[1..], 1) == Ok([Str("row 666")]);
    assert [Str("row 42")] + [Str("row 666")] == [Str("row 42"), Str("row 666")];
    assert Pick(rows[0].Values(), 3) == Err(NonExistentColumnIndex(3, 2));
  }
}
