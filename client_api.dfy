/**
 * The callback-style SAP HANA client the adapter wraps, seen only through the
 * values it hands back. Each asynchronous step is an already-settled `Result`.
 */
module ClientApi {
  import opened Wrappers

  /**
   * A rejection reason. `ClientError` is whatever the client reports; the adapter
   * never inspects or wraps it. `TypeError` is the runtime error JavaScript raises
   * when a property (named here) is read from `undefined`.
   */
  datatype Error = ClientError(code: int, message: string) | TypeError(property: string)

  /** A column value as the client returns it; `Undefined` is what reading a missing property yields. */
  datatype Cell = Undefined | Null | Bool(b: bool) | Number(n: int) | Text(s: string)

  /** A row maps column names to values. */
  type Row = map<string, Cell>

  /** A result set is the ordered sequence of rows of one query or procedure result. */
  type ResultSet = seq<Row>

  /** An opaque prepared-statement handle. */
  datatype Statement = Statement(handle: nat)

  /** One request the adapter makes of the client, in the order it makes them. */
  datatype Call = Prepare(sql: string) | Exec(statement: Statement, parameters: seq<Cell>)

  /**
   * The client: what `prepare(sql, cb)` and `statement.exec(params, cb)` would
   * report to their callbacks.
   */
  datatype Client = Client(
    prepare: string -> Result<Statement, Error>,
    exec: (Statement, seq<Cell>) -> Result<ResultSet, Error>)

  /** An outcome together with the requests made of the client to reach it. */
  datatype Traced<T> = Traced(calls: seq<Call>, result: Result<T, Error>)

  /** JavaScript property access `row[name]` on a row object. */
  function Column(row: Row, name: string): (c: Cell)
    ensures name in row ==> c == row[name]
    ensures name !in row ==> c == Undefined
  {
    if name in row then row[name] else Undefined
  }
}
