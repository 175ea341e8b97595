/**
 * The decision logic of the promise adapter around the SAP HANA client:
 * object-name patterns, schema selector resolution, `execSQL`'s
 * prepare-then-exec sequencing and the shaping of a stored procedure's
 * callback arguments into the value the promise resolves with.
 */
module Promisified {
  import opened Wrappers
  import opened ClientApi
  import Decimal
  import LikePattern

  /** The selector that asks the database for its current schema. */
  const CurrentSchemaSelector := "**CURRENT_SCHEMA**"
  /** The selector, and the object name, that stand for "any". */
  const AnySelector := "*"
  /** The `LIKE` wildcard the adapter emits. */
  const Wildcard := "%"
  /** The one query `schemaCalc` may issue, and the column it reads. */
  const CurrentSchemaQuery := "SELECT CURRENT_SCHEMA FROM DUMMY"
  const CurrentSchemaColumn := "CURRENT_SCHEMA"

  // ----- objectName -------------------------------------------------------

  /** `objectName(name)`: the `LIKE` pattern for an optional object name. */
  function ObjectName(name: Option<string>): (pattern: string)
    ensures |pattern| >= 1 && pattern[|pattern| - 1] == '%'
    ensures name.None? || name == Some(AnySelector) ==> pattern == Wildcard
    ensures name.Some? && name.value != AnySelector ==>
      |pattern| == |name.value| + 1 && pattern[..|name.value|] == name.value
  {
    match name
    case None => Wildcard
    case Some(n) => if n == AnySelector then Wildcard else n + Wildcard
  }

  /** The pattern is the bare wildcard exactly for a missing name, `*` and the empty name. */
  lemma ObjectNameIsWildcard(name: Option<string>)
    ensures ObjectName(name) == Wildcard <==> name.None? || name == Some(AnySelector) || name == Some("")
  {
  }

  /** A missing name or `*` selects every object. */
  lemma {:induction false} ObjectNameMatchesAll(name: Option<string>, target: string)
    requires name.None? || name == Some(AnySelector)
    ensures LikePattern.Like(ObjectName(name), target)
  {
    LikePattern.AnyRunMatchesAll(target);
  }

  /**
   * Any other name selects the objects whose names start with it, and, when it
   * holds no `LIKE` wildcard itself, only those.
   */
  lemma ObjectNameSelectsPrefix(n: string, target: string)
    requires n != AnySelector
    ensures n <= target ==> LikePattern.Like(ObjectName(Some(n)), target)
    ensures LikePattern.NoWildcards(n) && LikePattern.Like(ObjectName(Some(n)), target) ==> n <= target
  {
    assert ObjectName(Some(n)) == n + [LikePattern.AnyRun];
    if n <= target {
      LikePattern.PrefixPatternMatches(n, target);
    }
    if LikePattern.NoWildcards(n) && LikePattern.Like(ObjectName(Some(n)), target) {
      LikePattern.PrefixPatternMatchesOnly(n, target);
    }
  }

  // ----- execSQL ----------------------------------------------------------

  /** `execSQL(sql)`: prepare the text, then execute the statement with no parameters. */
  function ExecSql(db: Client, sql: string): (r: Traced<ResultSet>)
    ensures |r.calls| >= 1 && r.calls[0] == Prepare(sql)
    ensures db.prepare(sql).Err? ==> r.calls == [Prepare(sql)] && r.result == Err(db.prepare(sql).error)
    ensures db.prepare(sql).Ok? ==>
      r.calls == [Prepare(sql), Exec(db.prepare(sql).value, [])] && r.result == db.exec(db.prepare(sql).value, [])
    ensures r.result.Ok? <==> db.prepare(sql).Ok? && db.exec(db.prepare(sql).value, []).Ok?
    ensures forall i :: 0 <= i < |r.calls| && r.calls[i].Exec? ==> i == 1 && r.calls[i].parameters == []
  {
    match db.prepare(sql)
    case Err(e) => Traced([Prepare(sql)], Err(e))
    case Ok(statement) => Traced([Prepare(sql), Exec(statement, [])], db.exec(statement, []))
  }

  // ----- schemaCalc -------------------------------------------------------

  /** `schemaCalc({schema: selector}, db)`: the schema name or pattern a selector stands for. */
  function SchemaCalc(selector: string, db: Client): (r: Traced<Cell>)
    ensures r.calls != [] <==> selector == CurrentSchemaSelector
    ensures forall c :: c in r.calls ==> c == Prepare(CurrentSchemaQuery) || (c.Exec? && c.parameters == [])
    ensures selector == AnySelector ==> r.result == Ok(Text(Wildcard))
    ensures selector != CurrentSchemaSelector && selector != AnySelector ==> r.result == Ok(Text(selector))
    ensures selector == CurrentSchemaSelector ==>
      var q := ExecSql(db, CurrentSchemaQuery);
      r.calls == q.calls &&
      (q.result.Err? ==> r.result == Err(q.result.error)) &&
      (q.result == Ok([]) ==> r.result == Err(TypeError(CurrentSchemaColumn))) &&
      (q.result.Ok? && q.result.value != [] ==> r.result == Ok(Column(q.result.value[0], CurrentSchemaColumn)))
  {
    if selector == CurrentSchemaSelector then
      var q := ExecSql(db, CurrentSchemaQuery);
      Traced(q.calls,
        match q.result
        case Err(e) => Err(e)
        case Ok(rows) =>
          // reading CURRENT_SCHEMA of a missing first row throws
          if rows == [] then Err(TypeError(CurrentSchemaColumn))
          else Ok(Column(rows[0], CurrentSchemaColumn)))
    else if selector == AnySelector then Traced([], Ok(Text(Wildcard)))
    else Traced([], Ok(Text(selector)))
  }

  /** The `*` selector resolves to a pattern that matches every schema name. */
  lemma {:induction false} AnySchemaMatchesAll(db: Client, schema: string)
    ensures SchemaCalc(AnySelector, db).result.Ok?
    ensures SchemaCalc(AnySelector, db).result.value.Text?
    ensures LikePattern.Like(SchemaCalc(AnySelector, db).result.value.s, schema)
  {
    LikePattern.AnyRunMatchesAll(schema);
  }

  // ----- callProcedurePromisified -----------------------------------------

  /**
   * A property value of the object the procedure call resolves with; `S` is
   * whatever the procedure reports as its output scalar, which the adapter
   * passes on without looking at it.
   */
  datatype Property<S> = ScalarProperty(scalar: S) | ResultSetProperty(rows: ResultSet) | UndefinedProperty

  /** A plain JavaScript object: property names to values. */
  type JsObject<S> = map<string, Property<S>>

  const OutputScalarKey := "outputScalar"
  const ResultsKey := "results"

  /** The template literal `results${i}`. */
  function IndexedResultsKey(i: nat): (k: string)
    ensures |k| > |ResultsKey| && k[..|ResultsKey|] == ResultsKey
  {
    ResultsKey + Decimal.NatToString(i)
  }

  /** The property names of the object built for n >= 2 result sets. */
  function IndexedKeys(n: nat): set<string> {
    {OutputScalarKey} + set i: nat | i < n :: IndexedResultsKey(i)
  }

  /** Distinct indexes give distinct property names. */
  lemma IndexedResultsKeyInjective(i: nat, j: nat)
    requires IndexedResultsKey(i) == IndexedResultsKey(j)
    ensures i == j
  {
    assert IndexedResultsKey(i)[|ResultsKey|..] == Decimal.NatToString(i);
    assert IndexedResultsKey(j)[|ResultsKey|..] == Decimal.NatToString(j);
    Decimal.NatToStringInjective(i, j);
  }

  /** No indexed name collides with `outputScalar` or with the plain `results`. */
  lemma IndexedResultsKeyIsFresh(i: nat)
    ensures IndexedResultsKey(i) != OutputScalarKey
    ensures IndexedResultsKey(i) != ResultsKey
  {
  }

  /** The indexed object holds no plain `results` and no index at or beyond n. */
  lemma IndexedKeysExclude(n: nat)
    ensures ResultsKey !in IndexedKeys(n)
    ensures forall j: nat :: j >= n ==> IndexedResultsKey(j) !in IndexedKeys(n)
  {
    forall j: nat | j >= n ensures IndexedResultsKey(j) !in IndexedKeys(n) {
      IndexedResultsKeyIsFresh(j);
      if IndexedResultsKey(j) in IndexedKeys(n) {
        var i: nat :| i < n && IndexedResultsKey(i) == IndexedResultsKey(j);
        IndexedResultsKeyInjective(i, j);
      }
    }
  }

  /**
   * The completion callback of `callProcedurePromisified`, given
   * `(error, outputScalar, ...results)`: reject with the error, or resolve with
   * `{outputScalar, results: results[0]}` for fewer than two result sets, or with
   * `{outputScalar, results0, ..., resultsN-1}` for two or more.
   */
  method CallProcedure<S>(error: Option<Error>, outputScalar: S, results: seq<ResultSet>)
    returns (outcome: Result<JsObject<S>, Error>)
    ensures error.Some? ==> outcome == Err(error.value)
    ensures error.None? && |results| < 2 ==>
      outcome == Ok(map[OutputScalarKey := ScalarProperty(outputScalar),
                        ResultsKey := if results == [] then UndefinedProperty else ResultSetProperty(results[0])])
    ensures error.None? && |results| >= 2 ==>
      outcome.Ok? && outcome.value.Keys == IndexedKeys(|results|) &&
      outcome.value[OutputScalarKey] == ScalarProperty(outputScalar) &&
      forall i :: 0 <= i < |results| ==> outcome.value[IndexedResultsKey(i)] == ResultSetProperty(results[i])
  {
    if error.Some? {
      return Err(error.value);
    }
    if |results| < 2 {
      var first := if results == [] then UndefinedProperty else ResultSetProperty(results[0]);
      return Ok(map[OutputScalarKey := ScalarProperty(outputScalar), ResultsKey := first]);
    }
    var output: JsObject<S> := map[OutputScalarKey := ScalarProperty(outputScalar)];
    var i := 0;
    while i < |results|
      invariant 0 <= i <= |results|
      invariant output.Keys == IndexedKeys(i)
      invariant output[OutputScalarKey] == ScalarProperty(outputScalar)
      invariant forall j :: 0 <= j < i ==> output[IndexedResultsKey(j)] == ResultSetProperty(results[j])
    {
      IndexedResultsKeyIsFresh(i);
      forall j | 0 <= j < i ensures IndexedResultsKey(j) != IndexedResultsKey(i) {
        if IndexedResultsKey(j) == IndexedResultsKey(i) {
          IndexedResultsKeyInjective(i, j);
        }
      }
      output := output[IndexedResultsKey(i) := ResultSetProperty(results[i])];
      assert IndexedKeys(i + 1) == IndexedKeys(i) + {IndexedResultsKey(i)};
      i := i + 1;
    }
    return Ok(output);
  }
}
