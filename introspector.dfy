/** The schema introspector (src/introspector.ts): one tables query, then one
    columns query per table row in row order, then one enums query, with raw
    rows normalised into the schema model.

    The database connection's `raw(sql, params)` is an `Oracle`: for each of
    the three SQL texts, a function from the position of the call in the
    session and its parameters to the rows returned or the error raised. A
    live database ignores the position; a mock that queues one reply per call
    uses it. The queries issued are returned as a ghost log. */
module Introspector {
  import opened Types

  /** The three SQL texts the introspector sends. */
  datatype Sql = TablesSql | ColumnsSql | EnumsSql

  /** One `db.raw(sql, params)` call. */
  datatype Query = Query(sql: Sql, params: seq<string>)

  /** What a query resolves to: rows, or a rejection with an error message. */
  datatype Reply<+R> = Rows(rows: seq<R>) | Failed(error: string)

  /** A row of the tables query (labels table_name, table_schema). */
  datatype RawTable = RawTable(tableName: string, tableSchema: string)

  /** The query capability: the reply to the `n`-th call with the given
      parameters, for each SQL text. */
  datatype Oracle = Oracle(
    tables: (nat, seq<string>) -> Reply<RawTable>,
    columns: (nat, seq<string>) -> Reply<RawColumn>,
    enums: (nat, seq<string>) -> Reply<RawEnum>)

  function TablesQuery(schema: string): Query
  {
    Query(TablesSql, [schema])
  }

  /** The columns query of one table row is parameterised by that ROW's name
      and schema. */
  function ColumnsQuery(t: RawTable): Query
  {
    Query(ColumnsSql, [t.tableName, t.tableSchema])
  }

  function EnumsQuery(schema: string): Query
  {
    Query(EnumsSql, [schema])
  }

  /** The columns queries of the first `m` table rows, in row order. */
  function ColumnsQueries(rows: seq<RawTable>, m: nat): seq<Query>
    requires m <= |rows|
  {
    seq(m, j requires 0 <= j < m => ColumnsQuery(rows[j]))
  }

  /** The error the `n`-th call meets when it is `q`, if any. */
  function FailureOf(db: Oracle, n: nat, q: Query): Option<string>
  {
    match q.sql
    case TablesSql => (match db.tables(n, q.params) case Failed(e) => Some(e) case Rows(_) => None)
    case ColumnsSql => (match db.columns(n, q.params) case Failed(e) => Some(e) case Rows(_) => None)
    case EnumsSql => (match db.enums(n, q.params) case Failed(e) => Some(e) case Rows(_) => None)
  }

  // ---------------------------------------------------------------------------
  // Row normalisation (the `.map` callbacks)

  /** A raw column as the schema model holds it. The type is the `udt_name`,
      unless that is the marker `USER-DEFINED`, in which case `data_type`;
      the column is nullable exactly for `YES`; name, default and comment are
      copied verbatim. */
  function ColumnFromRaw(c: RawColumn): (r: DatabaseColumn)
    ensures r.name == c.columnName
    ensures c.udtName == "USER-DEFINED" ==> r.columnType == c.dataType
    ensures c.udtName != "USER-DEFINED" ==> r.columnType == c.udtName
    ensures r.isNullable <==> c.isNullable == "YES"
    ensures r.defaultValue == c.columnDefault && r.comment == c.description
  {
    DatabaseColumn(
      c.columnName,
      if c.udtName == "USER-DEFINED" then c.dataType else c.udtName,
      c.isNullable == "YES",
      c.columnDefault,
      c.description)
  }

  /** One column per column row, in row order. */
  function ColumnsFromRaw(cs: seq<RawColumn>): (r: seq<DatabaseColumn>)
    ensures |r| == |cs|
    ensures forall i :: 0 <= i < |cs| ==> r[i] == ColumnFromRaw(cs[i])
  {
    seq(|cs|, i requires 0 <= i < |cs| => ColumnFromRaw(cs[i]))
  }

  /** The table pushed for one table row: name and schema come from the row. */
  function TableFromRows(t: RawTable, cs: seq<RawColumn>): DatabaseTable
  {
    DatabaseTable(t.tableName, t.tableSchema, ColumnsFromRaw(cs))
  }

  /** An enum row as the schema model holds it: the stored label text is
      kept as it is. */
  function EnumFromRaw(e: RawEnum): (r: DatabaseEnum)
    ensures r.name == e.typname && r.schema == e.nspname && r.values == e.enumlabels
  {
    DatabaseEnum(e.typname, e.nspname, e.enumlabels)
  }

  /** One enum per enum row, in row order. */
  function EnumsFromRaw(es: seq<RawEnum>): (r: seq<DatabaseEnum>)
    ensures |r| == |es|
    ensures forall i :: 0 <= i < |es| ==> r[i] == EnumFromRaw(es[i])
  {
    seq(|es|, i requires 0 <= i < |es| => EnumFromRaw(es[i]))
  }

  // ---------------------------------------------------------------------------
  // The specification of the pipeline

  /** Whether the columns query of row `j` (the call at position `1 + j`)
      returns rows. */
  predicate ColumnsOk(db: Oracle, rows: seq<RawTable>, j: nat)
    requires j < |rows|
  {
    db.columns(1 + j, ColumnsQuery(rows[j]).params).Rows?
  }

  /** The column rows returned for row `j`. */
  function ColumnRowsAt(db: Oracle, rows: seq<RawTable>, j: nat): seq<RawColumn>
    requires j < |rows| && ColumnsOk(db, rows, j)
  {
    db.columns(1 + j, ColumnsQuery(rows[j]).params).rows
  }

  /** The first of the first `k` rows whose columns query fails, or `k`. */
  function FirstFailure(db: Oracle, rows: seq<RawTable>, k: nat): (f: nat)
    requires k <= |rows|
    ensures f <= k
    ensures forall j :: 0 <= j < f ==> ColumnsOk(db, rows, j)
    ensures f < k ==> !ColumnsOk(db, rows, f)
  {
    if k == 0 then 0
    else
      var f := FirstFailure(db, rows, k - 1);
      if f < k - 1 || !ColumnsOk(db, rows, k - 1) then f else k
  }

  /** The state of the table loop after the first `k` rows: the tables pushed
      (or the first error) and the columns queries issued. */
  function ColumnsPhase(db: Oracle, rows: seq<RawTable>, k: nat): (r: (Result<seq<DatabaseTable>>, seq<Query>))
    requires k <= |rows|
    ensures |r.1| <= k
    ensures forall j :: 0 <= j < |r.1| ==> r.1[j] == ColumnsQuery(rows[j])
    ensures r.0.Success? ==> |r.0.value| == k && |r.1| == k
    ensures r.0.Failure? ==> |r.1| >= 1
  {
    if k == 0 then (Success([]), [])
    else
      var prev := ColumnsPhase(db, rows, k - 1);
      if prev.0.Failure? then prev
      else
        var q := ColumnsQuery(rows[k - 1]);
        match db.columns(k, q.params)
        case Failed(e) => (Failure(e), prev.1 + [q])
        case Rows(cs) => (Success(prev.0.value + [TableFromRows(rows[k - 1], cs)]), prev.1 + [q])
  }

  /** `introspectTables`: its result and the queries it issues. The tables
      query comes first; a success holds one table per table row, after one
      query more than it has tables. */
  function TablesOutcome(db: Oracle, schema: string): (r: (Result<seq<DatabaseTable>>, seq<Query>))
    ensures |r.1| >= 1 && r.1[0] == TablesQuery(schema)
    ensures r.0.Success? ==> db.tables(0, [schema]).Rows? && |r.0.value| == |db.tables(0, [schema]).rows|
    ensures r.0.Success? ==> |r.1| == 1 + |r.0.value|
  {
    match db.tables(0, [schema])
    case Failed(e) => (Failure(e), [TablesQuery(schema)])
    case Rows(rows) =>
      var p := ColumnsPhase(db, rows, |rows|);
      (p.0, [TablesQuery(schema)] + p.1)
  }

  /** `introspectEnums`, issued as call number `n`: exactly the one enums
      query; it succeeds iff that query returns rows, with one enum per row,
      and otherwise fails with the query's error. */
  function EnumsOutcome(db: Oracle, n: nat, schema: string): (r: (Result<seq<DatabaseEnum>>, seq<Query>))
    ensures r.1 == [EnumsQuery(schema)]
    ensures r.0.Success? <==> db.enums(n, [schema]).Rows?
    ensures r.0.Success? ==> |r.0.value| == |db.enums(n, [schema]).rows|
    ensures r.0.Failure? ==> r.0.error == db.enums(n, [schema]).error
  {
    match db.enums(n, [schema])
    case Failed(e) => (Failure(e), [EnumsQuery(schema)])
    case Rows(es) => (Success(EnumsFromRaw(es)), [EnumsQuery(schema)])
  }

  /** `introspectSchema`: tables first; the enums query only if they succeed.
      A success ends with the enums query, after one query per table more
      than the two listing queries. */
  function SchemaOutcome(db: Oracle, schema: string): (r: (Result<DatabaseSchema>, seq<Query>))
    ensures |r.1| >= 1 && r.1[0] == TablesQuery(schema)
    ensures r.0.Success? ==> |r.1| == 2 + |r.0.value.tables| && r.1[|r.1| - 1] == EnumsQuery(schema)
  {
    var t := TablesOutcome(db, schema);
    if t.0.Failure? then (Failure(t.0.error), t.1)
    else
      var e := EnumsOutcome(db, |t.1|, schema);
      (if e.0.Failure? then Failure(e.0.error) else Success(DatabaseSchema(t.0.value, e.0.value)),
       t.1 + e.1)
  }

  // ---------------------------------------------------------------------------
  // Properties of the specification

  /** Once a columns query has failed, the loop issues nothing more. */
  lemma {:induction false} FailureSticks(db: Oracle, rows: seq<RawTable>, k: nat, m: nat)
    requires k <= m <= |rows|
    requires ColumnsPhase(db, rows, k).0.Failure?
    ensures ColumnsPhase(db, rows, m) == ColumnsPhase(db, rows, k)
  {
    if m > k {
      FailureSticks(db, rows, k, m - 1);
    }
  }

  /** The table loop after `k` rows: it succeeds iff every columns query
      succeeds; then it holds one table per row, in row order, built from that
      row and its column rows, after one columns query per row. Otherwise the
      error is the first failing query's and the log stops right there. */
  lemma {:induction false} ColumnsPhaseSpec(db: Oracle, rows: seq<RawTable>, k: nat)
    requires k <= |rows|
    ensures var p := ColumnsPhase(db, rows, k);
            var f := FirstFailure(db, rows, k);
            && (p.0.Success? <==> f == k)
            && (p.0.Success? ==>
                  && |p.0.value| == k
                  && (forall j :: 0 <= j < k ==> p.0.value[j] == TableFromRows(rows[j], ColumnRowsAt(db, rows, j)))
                  && p.1 == ColumnsQueries(rows, k))
            && (p.0.Failure? ==>
                  && p.0.error == db.columns(1 + f, ColumnsQuery(rows[f]).params).error
                  && p.1 == ColumnsQueries(rows, f + 1))
  {
    if k > 0 {
      ColumnsPhaseSpec(db, rows, k - 1);
      var prev := ColumnsPhase(db, rows, k - 1);
      if prev.0.Success? {
        assert ColumnsQueries(rows, k) == ColumnsQueries(rows, k - 1) + [ColumnsQuery(rows[k - 1])];
      }
    }
  }

  /** The queries issued, in order: the tables query; then one columns query
      per table row, in row order, up to and including the first that fails;
      then, only if none failed, the enums query. The tables and enums queries
      carry the schema argument, each columns query its row's name and schema. */
  lemma QueryOrder(db: Oracle, schema: string)
    ensures db.tables(0, [schema]).Failed? ==> SchemaOutcome(db, schema).1 == [TablesQuery(schema)]
    ensures db.tables(0, [schema]).Rows? ==>
              var rows := db.tables(0, [schema]).rows;
              var f := FirstFailure(db, rows, |rows|);
              var log := SchemaOutcome(db, schema).1;
              && (f < |rows| ==> log == [TablesQuery(schema)] + ColumnsQueries(rows, f + 1))
              && (f == |rows| ==> log == [TablesQuery(schema)] + ColumnsQueries(rows, |rows|) + [EnumsQuery(schema)])
  {
    if db.tables(0, [schema]).Rows? {
      var rows := db.tables(0, [schema]).rows;
      ColumnsPhaseSpec(db, rows, |rows|);
    }
  }

  /** On success: exactly `2 + |tables|` queries; one table per table row in
      row order, name and schema copied from the row; each table's columns
      one-to-one and in order with its column rows; one enum per enum row in
      row order. */
  lemma SchemaContents(db: Oracle, schema: string)
    requires SchemaOutcome(db, schema).0.Success?
    ensures db.tables(0, [schema]).Rows?
    ensures var rows := db.tables(0, [schema]).rows;
            var s := SchemaOutcome(db, schema).0.value;
            && |SchemaOutcome(db, schema).1| == 2 + |s.tables|
            && |s.tables| == |rows|
            && (forall j :: 0 <= j < |rows| ==>
                  && ColumnsOk(db, rows, j)
                  && s.tables[j].name == rows[j].tableName
                  && s.tables[j].schema == rows[j].tableSchema
                  && s.tables[j].columns == ColumnsFromRaw(ColumnRowsAt(db, rows, j)))
            && db.enums(1 + |rows|, [schema]).Rows?
            && s.enums == EnumsFromRaw(db.enums(1 + |rows|, [schema]).rows)
  {
    var rows := db.tables(0, [schema]).rows;
    ColumnsPhaseSpec(db, rows, |rows|);
  }

  /** Failure propagates at once: every query but the last in the log
      succeeded; the result is a failure exactly when the last one failed, and
      then carries its error. */
  lemma FailurePropagation(db: Oracle, schema: string)
    ensures var (r, log) := SchemaOutcome(db, schema);
            && |log| >= 1
            && (forall j :: 0 <= j < |log| - 1 ==> FailureOf(db, j, log[j]).None?)
            && (r.Failure? <==> FailureOf(db, |log| - 1, log[|log| - 1]).Some?)
            && (r.Failure? ==> FailureOf(db, |log| - 1, log[|log| - 1]) == Some(r.error))
  {
    QueryOrder(db, schema);
    if db.tables(0, [schema]).Rows? {
      var rows := db.tables(0, [schema]).rows;
      ColumnsPhaseSpec(db, rows, |rows|);
      var (r, log) := SchemaOutcome(db, schema);
      var f := FirstFailure(db, rows, |rows|);
      var prefix := [TablesQuery(schema)] + ColumnsQueries(rows, f);
      if f < |rows| {
        assert log == prefix + [ColumnsQuery(rows[f])] by {
          assert ColumnsQueries(rows, f + 1) == ColumnsQueries(rows, f) + [ColumnsQuery(rows[f])];
        }
        assert log[..1 + f] == prefix;
        ColumnQueriesSucceed(db, schema, rows, log, f);
        assert |log| - 1 == 1 + f && log[|log| - 1] == ColumnsQuery(rows[f]);
        assert !ColumnsOk(db, rows, f);
      } else {
        assert log == prefix + [EnumsQuery(schema)];
        assert log[..1 + f] == prefix;
        ColumnQueriesSucceed(db, schema, rows, log, f);
      }
    }
  }

  /** The columns queries before the first failing row all succeed, whatever
      follows them in the log. */
  lemma ColumnQueriesSucceed(db: Oracle, schema: string, rows: seq<RawTable>, log: seq<Query>, f: nat)
    requires db.tables(0, [schema]) == Rows(rows)
    requires f <= |rows| && forall j :: 0 <= j < f ==> ColumnsOk(db, rows, j)
    requires |log| >= 1 + f && log[..1 + f] == [TablesQuery(schema)] + ColumnsQueries(rows, f)
    ensures forall j :: 0 <= j < 1 + f ==> FailureOf(db, j, log[j]).None?
  {
    forall j | 0 <= j < 1 + f
      ensures FailureOf(db, j, log[j]).None?
    {
      assert log[j] == log[..1 + f][j];
      if j > 0 {
        assert log[j] == ColumnsQuery(rows[j - 1]);
        assert ColumnsOk(db, rows, j - 1);
      }
    }
  }

  // ---------------------------------------------------------------------------
  // The introspector

  /** `introspectTables`: the tables query, then for each row in order its
      columns query, pushing one table per row; the first failure aborts. */
  method IntrospectTables(db: Oracle, schema: string)
    returns (r: Result<seq<DatabaseTable>>, ghost log: seq<Query>)
    ensures r == TablesOutcome(db, schema).0
    ensures log == TablesOutcome(db, schema).1
  {
    log := [TablesQuery(schema)];
    var tables := db.tables(0, [schema]);
    if tables.Failed? {
      return Failure(tables.error), log;
    }
    var rows := tables.rows;
    var result: seq<DatabaseTable> := [];
    var i := 0;
    while i < |rows|
      invariant 0 <= i <= |rows|
      invariant ColumnsPhase(db, rows, i).0 == Success(result)
      invariant log == [TablesQuery(schema)] + ColumnsPhase(db, rows, i).1
    {
      var table := rows[i];
      var columns := db.columns(1 + i, [table.tableName, table.tableSchema]);
      log := log + [ColumnsQuery(table)];
      if columns.Failed? {
        assert ColumnsPhase(db, rows, i + 1)
            == (Failure(columns.error), ColumnsPhase(db, rows, i).1 + [ColumnsQuery(table)]);
        FailureSticks(db, rows, i + 1, |rows|);
        assert log == [TablesQuery(schema)] + ColumnsPhase(db, rows, |rows|).1;
        return Failure(columns.error), log;
      }
      result := result + [DatabaseTable(table.tableName, table.tableSchema, ColumnsFromRaw(columns.rows))];
      i := i + 1;
    }
    r := Success(result);
  }

  /** `introspectEnums`, issued as call number `callIndex`. */
  method IntrospectEnums(db: Oracle, callIndex: nat, schema: string)
    returns (r: Result<seq<DatabaseEnum>>, ghost log: seq<Query>)
    ensures r == EnumsOutcome(db, callIndex, schema).0
    ensures log == EnumsOutcome(db, callIndex, schema).1
  {
    log := [EnumsQuery(schema)];
    var enums := db.enums(callIndex, [schema]);
    if enums.Failed? {
      return Failure(enums.error), log;
    }
    r := Success(EnumsFromRaw(enums.rows));
  }

  /** `introspectSchema`: the tables, then the enums. */
  method IntrospectSchema(db: Oracle, schema: string)
    returns (r: Result<DatabaseSchema>, ghost log: seq<Query>)
    ensures r == SchemaOutcome(db, schema).0
    ensures log == SchemaOutcome(db, schema).1
  {
    var tables, enums;
    ghost var tablesLog, enumsLog;
    tables, tablesLog := IntrospectTables(db, schema);
    if tables.Failure? {
      return Failure(tables.error), tablesLog;
    }
    enums, enumsLog := IntrospectEnums(db, 1 + |tables.value|, schema);
    log := tablesLog + enumsLog;
    if enums.Failure? {
      return Failure(enums.error), log;
    }
    r := Success(DatabaseSchema(tables.value, enums.value));
  }
}
