/**
  The data the library passes to and receives from the PostgreSQL driver:
  column values, rows, query inputs and the statements sent to a connection.
 */
module Values {
  import opened Wrappers

  /** A JavaScript value as it appears in a row or a parameter list. */
  datatype Value = Undefined | Null | Bool(b: bool) | Int(i: int) | Str(s: string)

  /** A result row: its columns in the order `Object.values` yields them. */
  datatype Row = Row(columns: seq<(string, Value)>) {

    /** The row's values in column order. */
    function Values(): (vs: seq<Value>)
      ensures |vs| == |columns|
      ensures forall i :: 0 <= i < |columns| ==> vs[i] == columns[i].1
    {
      seq(|columns|, i requires 0 <= i < |columns| => columns[i].1)
    }
  }

  /** The first argument of `query`: a bare SQL string or a `{text, values}` config. */
  datatype QueryInput = Text(text: string) | Config(text: string, values: Option<seq<Value>>) {

    /** The SQL text of the input, whichever form it has. */
    function SqlText(): string {
      text
    }
  }

  /**
    A statement issued on a connection. Batched inserts and deletes are kept
    opaque: the SQL text they produce is built by the pg-async template
    library, which is not part of this model.
   */
  datatype Statement =
    | Sql(text: string)
    | InsertRows(table: string, rows: seq<Row>, suffix: string)
    | DeleteKeys(table: string, keyName: string, keys: seq<Value>)

  /** The driver's answer to one statement: the rows and the reported row count. */
  datatype QueryResult = QueryResult(rows: seq<Row>, rowCount: nat)
}
