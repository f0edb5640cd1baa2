/**
 * The CRUD query generator (internal/crud): for every configured table, in ascending name order,
 * and every configured method of it, in ascending name order, one sqlc query is appended to a
 * shared builder.  Placeholders `$n` are numbered by a counter threaded through each query.
 */
module Crud {
  import opened Wrappers
  import opened Strings
  import opened Sql
  import Utils
  import Fields
  import Config
  import Tables

  const MethodCreate := "create"
  const MethodUpdate := "update"
  const MethodDelete := "delete"
  const MethodGet := "get"
  const MethodFind := "find"
  const MethodTotal := "total"

  /** One configured table: its primary column, output directory and methods by method type. */
  datatype TableParams = TableParams(primaryColumn: string, outputDir: string, methods: map<string, Config.Method>)

  /** processParams without the builder: the table, its columns in database order, the settings. */
  datatype Params = Params(table: string, columns: seq<string>, methodParams: Config.Method, tableParams: TableParams)

  datatype CrudError =
    | MissingTable(table: string)
    | UndefinedPrimaryColumn
    | NoPrimaryColumn(table: string, column: string)
    | NoSuchParam(param: string, table: string)
    | WhileProcess(methodType: string, table: string, cause: CrudError)

  /** Pieces written and the next unused placeholder number. */
  datatype Written = Written(pieces: seq<Piece>, next: nat)

  /** The builder grew by exactly the query on success; an error is reported as the query's error. */
  ghost predicate Wrote(before: seq<Piece>, after: seq<Piece>, query: Result<seq<Piece>, CrudError>, err: Option<CrudError>) {
    (query.Ok? ==> err.None? && after == before + query.value)
    && (query.Err? ==> err == Some(query.error))
  }

  // ---------------------------------------------------------------- names and headers

  /** getMethodName: the camel-cased "<method> <table>", a trailing 's' dropped except for find and total. */
  function MethodName(methodType: string, table: string): string {
    var name := Utils.CamelCase(methodType + " " + table);
    if methodType != MethodFind && methodType != MethodTotal && HasSuffix(name, "s") then name[..|name| - 1]
    else name
  }

  /** The configured query name, or the generated one when none is configured. */
  function QueryName(p: Params, methodType: string): string {
    if p.methodParams.name != "" then p.methodParams.name else MethodName(methodType, p.table)
  }

  /** The configured name, else the generated one: the prologue of every process function. */
  method GetMethodName(p: Params, methodType: string) returns (name: string)
    ensures name == QueryName(p, methodType)
  {
    name := p.methodParams.name;
    if name == "" {
      name := MethodName(methodType, p.table);
    }
  }

  function Header(name: string, operation: string): string {
    "-- name: " + name + " :" + operation + "\n"
  }

  function Quote(s: string): string {
    "\"" + s + "\""
  }

  /** The name processTotal gives its query, as written: the delete method's default name. */
  function TotalNameAsWritten(p: Params): string {
    QueryName(p, MethodDelete)
  }

  /** The name processTotal evidently means: the total method's own default name. */
  function TotalName(p: Params): string {
    QueryName(p, MethodTotal)
  }

  /** As written, an unnamed total query takes the name of the unnamed delete query of its table. */
  lemma TotalNameCollides(p: Params)
    ensures p.methodParams.name == "" ==> TotalNameAsWritten(p) == MethodName(MethodDelete, p.table)
  {
  }

  /** The total query's default name differs from the delete query's: "Total…" against "Delete…". */
  lemma TotalNameDistinct(p: Params)
    ensures p.methodParams.name == "" ==> TotalName(p) != MethodName(MethodDelete, p.table)
  {
    if p.methodParams.name == "" {
      var total := Utils.CamelCase(MethodTotal + " " + p.table);
      var delete := Utils.CamelCase(MethodDelete + " " + p.table);
      Utils.CamelCaseFirst(MethodTotal + " " + p.table);
      Utils.CamelCaseFirst(MethodDelete + " " + p.table);
      assert TotalName(p) == total;
      assert total[0] == 'T' && delete[0] == 'D';
      var d := MethodName(MethodDelete, p.table);
      assert |d| > 0 && d[0] == 'D' by {
        if HasSuffix(delete, "s") {
          assert |delete| >= 2;
        }
      }
    }
  }

  // ---------------------------------------------------------------- helpers

  /** getPrimaryColumn: no configured column is no error; a configured one must be a column. */
  function GetPrimaryColumn(columns: seq<string>, table: string, column: string): (r: Result<string, CrudError>)
    ensures column == "" ==> r == Ok("")
    ensures column != "" ==> (r.Ok? <==> column in columns)
    ensures r.Ok? && column != "" ==> r.value == column
    ensures r.Err? ==> r.error == NoPrimaryColumn(table, column)
  {
    if column != "" then
      if !Utils.ExistInArray(columns, column) then Err(NoPrimaryColumn(table, column)) else Ok(column)
    else Ok("")
  }

  /** The primary column update, delete and get key on: it must be configured and be a column. */
  function PrimaryKey(p: Params): Result<string, CrudError> {
    var r := GetPrimaryColumn(p.columns, p.table, p.tableParams.primaryColumn);
    if r.Err? then r else if r.value == "" then Err(UndefinedPrimaryColumn) else r
  }

  /** getWhereParams: nothing for create (in any letter case), the configured map otherwise. */
  function WhereParams(m: Config.Method, methodType: string): map<string, Config.WhereParamsItem> {
    if ToLower(methodType) == "create" then map[] else m.where
  }

  /** getOrderByParams: no ordering without a column; the direction defaults to DESC. */
  function GetOrderByParams(m: Config.Method): (r: Option<Config.OrderParam>)
    ensures r.None? <==> m.order.orderBy == ""
    ensures r.Some? ==> r.value.orderBy == m.order.orderBy
    ensures r.Some? ==> r.value.direction == if m.order.direction == "" then "DESC" else m.order.direction
  {
    if m.order.orderBy == "" then None
    else if m.order.direction == "" then Some(m.order.(direction := "DESC"))
    else Some(m.order)
  }

  /** The number of entries of cols[i..] other than `skip`. */
  function Others(cols: seq<string>, i: nat, skip: string): nat
    requires i <= |cols|
    decreases |cols| - i
  {
    if i == |cols| then 0 else (if cols[i] != skip then 1 else 0) + Others(cols, i + 1, skip)
  }

  // ---------------------------------------------------------------- processWhereParam

  /** The keyword before a predicate, with its surrounding spaces. */
  function Connective(k: string): seq<Piece> {
    [Text(" "), Keyword(k), Text(" ")]
  }

  /** One predicate: with no value it compares against placeholder n, by "=" by default. */
  function ClausePieces(param: string, item: Config.WhereParamsItem, n: nat): seq<Piece> {
    if item.value == "" then
      [Text(Quote(param) + " " + (if item.operator == "" then "=" else item.operator) + " "), Param(n)]
    else
      [Text(Quote(param))] + (if item.operator != "" then [Text(" " + item.operator)] else []) + [Text(" " + item.value)]
  }

  function Prepend(ps: seq<Piece>, r: Result<Written, CrudError>): Result<Written, CrudError> {
    if r.Err? then r else Ok(Written(ps + r.value.pieces, r.value.next))
  }

  /**
   * The predicates for keys[i..], `first` before the very first and `later` before the others;
   * a key that is not a column stops the query with an error.
   */
  function WherePieces(keys: seq<string>, i: nat, params: map<string, Config.WhereParamsItem>,
                       p: Params, first: string, later: string, n: nat): Result<Written, CrudError>
    requires i <= |keys|
    requires forall k :: k in keys ==> k in params
    decreases |keys| - i
  {
    if i == |keys| then Ok(Written([], n))
    else if keys[i] !in p.columns then Err(NoSuchParam(keys[i], p.table))
    else
      var item := params[keys[i]];
      Prepend(Connective(if i == 0 then first else later) + ClausePieces(keys[i], item, n),
              WherePieces(keys, i + 1, params, p, first, later, if item.value == "" then n + 1 else n))
  }

  /**
   * The keywords as written: find and total put WHERE before every predicate; the others put
   * WHERE first only when no primary column is configured, AND otherwise.
   */
  function ConnectivesAsWritten(p: Params, methodType: string): (string, string) {
    var always := methodType == MethodFind || methodType == MethodTotal;
    (if always || p.tableParams.primaryColumn == "" then "WHERE" else "AND", if always then "WHERE" else "AND")
  }

  /** The keywords evidently intended: the first as written, AND before every later predicate. */
  function Connectives(p: Params, methodType: string): (string, string) {
    var always := methodType == MethodFind || methodType == MethodTotal;
    (if always || p.tableParams.primaryColumn == "" then "WHERE" else "AND", "AND")
  }

  /** The predicates of a method, in ascending key order, numbered from n. */
  ghost function WhereClauses(p: Params, methodType: string, n: nat): Result<Written, CrudError> {
    var params := WhereParams(p.methodParams, methodType);
    var c := Connectives(p, methodType);
    SortedSetStrict(params.Keys);
    WherePieces(SortedSet(params.Keys), 0, params, p, c.0, c.1, n)
  }

  ghost function WhereClausesAsWritten(p: Params, methodType: string, n: nat): Result<Written, CrudError> {
    var params := WhereParams(p.methodParams, methodType);
    var c := ConnectivesAsWritten(p, methodType);
    SortedSetStrict(params.Keys);
    WherePieces(SortedSet(params.Keys), 0, params, p, c.0, c.1, n)
  }

  /** The number of placeholders the predicates of keys[i..] take: one per param without a value. */
  function Consumed(keys: seq<string>, i: nat, params: map<string, Config.WhereParamsItem>): nat
    requires i <= |keys|
    requires forall k :: k in keys ==> k in params
    decreases |keys| - i
  {
    if i == |keys| then 0 else (if params[keys[i]].value == "" then 1 else 0) + Consumed(keys, i + 1, params)
  }

  lemma PrependNothing(r: Result<Written, CrudError>)
    ensures Prepend([], r) == r
  {
    if r.Ok? {
      assert [] + r.value.pieces == r.value.pieces;
    }
  }

  lemma PrependTwice(a: seq<Piece>, b: seq<Piece>, r: Result<Written, CrudError>)
    ensures Prepend(a, Prepend(b, r)) == Prepend(a + b, r)
  {
    if r.Ok? {
      assert a + (b + r.value.pieces) == (a + b) + r.value.pieces;
    }
  }

  /** A key that is not a column fails the predicates, whatever was written before it. */
  lemma PrependError(written: seq<Piece>, keys: seq<string>, i: nat, params: map<string, Config.WhereParamsItem>,
                     p: Params, first: string, later: string, n: nat)
    requires i < |keys| && keys[i] !in p.columns
    requires forall k :: k in keys ==> k in params
    ensures Prepend(written, WherePieces(keys, i, params, p, first, later, n)) == Err(NoSuchParam(keys[i], p.table))
  {
  }

  /** Past the last key, the predicates are exactly what was written. */
  lemma PrependDone(written: seq<Piece>, keys: seq<string>, params: map<string, Config.WhereParamsItem>,
                    p: Params, first: string, later: string, n: nat)
    requires forall k :: k in keys ==> k in params
    ensures Prepend(written, WherePieces(keys, |keys|, params, p, first, later, n)) == Ok(Written(written, n))
  {
    assert written + [] == written;
  }

  /** The body of processWhereParam's loop after the keyword: one predicate. */
  method WriteClause(b: Builder, param: string, item: Config.WhereParamsItem, lastIndex: nat) returns (next: nat)
    modifies b
    ensures b.out == old(b.out) + ClausePieces(param, item, lastIndex)
    ensures next == if item.value == "" then lastIndex + 1 else lastIndex
  {
    next := lastIndex;
    if item.value == "" {
      var operator := item.operator;
      if operator == "" {
        operator := "=";
      }
      b.Write([Text(Quote(param) + " " + operator + " "), Param(next)]);
      next := next + 1;
    } else {
      ghost var start := b.out;
      b.Write([Text(Quote(param))]);
      if item.operator != "" {
        b.Write([Text(" " + item.operator)]);
      }
      b.Write([Text(" " + item.value)]);
      assert b.out == start + ClausePieces(param, item, lastIndex);
    }
  }

  /** One round of processWhereParam's loop, for a key that is a column: the keyword, then the predicate. */
  method WritePredicate(b: Builder, keys: seq<string>, i: nat, params: map<string, Config.WhereParamsItem>,
                        p: Params, first: string, later: string, conn: string, lastIndex: nat)
    returns (next: nat, ghost step: seq<Piece>)
    requires i < |keys| && keys[i] in p.columns
    requires forall k :: k in keys ==> k in params
    requires conn == if i == 0 then first else later
    modifies b
    ensures b.out == old(b.out) + step
    ensures WherePieces(keys, i, params, p, first, later, lastIndex)
         == Prepend(step, WherePieces(keys, i + 1, params, p, first, later, next))
  {
    var param := keys[i];
    var item := params[param];
    b.Write(Connective(conn));
    next := WriteClause(b, param, item, lastIndex);
    step := Connective(conn) + ClausePieces(param, item, lastIndex);
    AppendAssoc(old(b.out), Connective(conn), ClausePieces(param, item, lastIndex));
  }

  /** processWhereParam's loop over the sorted keys. */
  method WriteWhere(b: Builder, keys: seq<string>, params: map<string, Config.WhereParamsItem>,
                    p: Params, first: string, later: string, lastIndex: nat)
    returns (err: Option<CrudError>, next: nat)
    requires forall k :: k in keys ==> k in params
    modifies b
    ensures var w := WherePieces(keys, 0, params, p, first, later, lastIndex);
      (w.Ok? ==> err.None? && b.out == old(b.out) + w.value.pieces && next == w.value.next)
      && (w.Err? ==> err == Some(w.error))
  {
    ghost var start := b.out;
    ghost var written: seq<Piece> := [];
    PrependNothing(WherePieces(keys, 0, params, p, first, later, lastIndex));
    next := lastIndex;
    var firstIter := true;
    var i := 0;
    while i < |keys|
      invariant 0 <= i <= |keys|
      invariant firstIter <==> i == 0
      invariant b.out == start + written
      invariant WherePieces(keys, 0, params, p, first, later, lastIndex)
             == Prepend(written, WherePieces(keys, i, params, p, first, later, next))
    {
      if !Utils.ExistInArray(p.columns, keys[i]) {
        PrependError(written, keys, i, params, p, first, later, next);
        return Some(NoSuchParam(keys[i], p.table)), next;
      }
      var conn := if firstIter then first else later;
      ghost var step;
      next, step := WritePredicate(b, keys, i, params, p, first, later, conn, next);
      AppendAssoc(start, written, step);
      PrependTwice(written, step, WherePieces(keys, i + 1, params, p, first, later, next));
      written := written + step;
      firstIter := false;
      i := i + 1;
    }
    PrependDone(written, keys, params, p, first, later, next);
    err := None;
  }

  /**
   * processWhereParam: the predicates in ascending key order, a placeholder consumed only by a
   * param without a value; `next` is the counter afterwards.
   */
  method ProcessWhereParam(b: Builder, p: Params, methodType: string, lastIndex: nat)
    returns (err: Option<CrudError>, next: nat)
    modifies b
    ensures var w := WhereClauses(p, methodType, lastIndex);
      (w.Ok? ==> err.None? && b.out == old(b.out) + w.value.pieces && next == w.value.next)
      && (w.Err? ==> err == Some(w.error))
  {
    var params := WhereParams(p.methodParams, methodType);
    SortedSetStrict(params.Keys);
    if |params| == 0 {
      assert SortedSet(params.Keys) == [];
      return None, lastIndex;
    }
    var keys := Fields.CollectKeys(params);
    keys := SortStrings(keys);
    Fields.KeysAreSortedSet(params, keys);
    var always := methodType == MethodFind || methodType == MethodTotal;
    var first := if always || p.tableParams.primaryColumn == "" then "WHERE" else "AND";
    err, next := WriteWhere(b, keys, params, p, first, "AND", lastIndex);
  }

  // ---------------------------------------------------------------- shared pieces

  /** The header line, then the statement's verb and the table. */
  function QueryHead(name: string, operation: string, verb: string, table: string): seq<Piece> {
    [Text(Header(name, operation)), Text(verb), Text(table)]
  }

  /** The primary-column predicate `WHERE "pk"=$n`, after `lead`. */
  function KeyPredicate(lead: string, key: string, n: nat): seq<Piece> {
    [Text(lead), Keyword("WHERE"), Text(" " + Quote(key) + "="), Param(n)]
  }

  function Returning(m: Config.Method): seq<Piece> {
    if m.returning != "" then [Text("\n\tRETURNING *")] else []
  }

  const End: seq<Piece> := [Text(";\n\n")]

  // ---------------------------------------------------------------- create

  /** The list separator before entry i. */
  function Separator(i: nat): seq<Piece> {
    if i > 0 then [Text(", ")] else []
  }

  /** One inserted value: now() for created_at, placeholder n for any other column. */
  function ValueItem(column: string, n: nat): seq<Piece> {
    if column == "created_at" then [Text("now()")] else [Param(n)]
  }

  /** The quoted column names, separated by ", ". */
  function ColumnPieces(cols: seq<string>, i: nat): seq<Piece>
    requires i <= |cols|
    decreases |cols| - i
  {
    if i == |cols| then []
    else Separator(i) + [Text(Quote(cols[i]))] + ColumnPieces(cols, i + 1)
  }

  /** The VALUES list: now() for created_at, the next placeholder for every other column. */
  function ValuePieces(cols: seq<string>, i: nat, n: nat): seq<Piece>
    requires i <= |cols|
    decreases |cols| - i
  {
    if i == |cols| then []
    else
      Separator(i) + ValueItem(cols[i], n) + ValuePieces(cols, i + 1, if cols[i] == "created_at" then n else n + 1)
  }

  function Operation(m: Config.Method): string {
    if m.returning != "" then "one" else "exec"
  }

  /** processCreate's query: `:one` with RETURNING * when a returning is configured, `:exec` otherwise. */
  function CreateQuery(p: Params): seq<Piece> {
    var cols := Utils.Without(p.columns, p.methodParams.skipColumns);
    QueryHead(QueryName(p, MethodCreate), Operation(p.methodParams), "INSERT INTO ", p.table)
    + [Text(" (")] + ColumnPieces(cols, 0) + [Text(")\n\tVALUES (")] + ValuePieces(cols, 0, 1) + [Text(")")]
    + Returning(p.methodParams) + End
  }

  method WriteColumns(b: Builder, cols: seq<string>)
    modifies b
    ensures b.out == old(b.out) + ColumnPieces(cols, 0)
  {
    ghost var start := b.out;
    var i := 0;
    while i < |cols|
      invariant 0 <= i <= |cols|
      invariant b.out + ColumnPieces(cols, i) == start + ColumnPieces(cols, 0)
    {
      ghost var before := b.out;
      if i > 0 {
        b.Write([Text(", ")]);
      }
      b.Write([Text(Quote(cols[i]))]);
      assert b.out + ColumnPieces(cols, i + 1) == before + ColumnPieces(cols, i);
      i := i + 1;
    }
  }

  /** Writing entry i of the VALUES list leaves the entries after it to be written. */
  lemma ValuesStep(before: seq<Piece>, out: seq<Piece>, cols: seq<string>, i: nat, n: nat)
    requires i < |cols| && out == before + (Separator(i) + ValueItem(cols[i], n))
    ensures out + ValuePieces(cols, i + 1, if cols[i] == "created_at" then n else n + 1) == before + ValuePieces(cols, i, n)
  {
  }

  method WriteValues(b: Builder, cols: seq<string>)
    modifies b
    ensures b.out == old(b.out) + ValuePieces(cols, 0, 1)
  {
    ghost var start := b.out;
    var lastIndex := 1;
    var i := 0;
    while i < |cols|
      invariant 0 <= i <= |cols|
      invariant b.out + ValuePieces(cols, i, lastIndex) == start + ValuePieces(cols, 0, 1)
    {
      ghost var before := b.out;
      ghost var n := lastIndex;
      if i > 0 {
        b.Write([Text(", ")]);
      }
      if cols[i] == "created_at" {
        b.Write([Text("now()")]);
      } else {
        b.Write([Param(lastIndex)]);
        lastIndex := lastIndex + 1;
      }
      assert b.out == before + (Separator(i) + ValueItem(cols[i], n));
      ValuesStep(before, b.out, cols, i, n);
      i := i + 1;
    }
  }

  method ProcessCreate(b: Builder, p: Params) returns (err: Option<CrudError>)
    modifies b
    ensures err.None? && b.out == old(b.out) + CreateQuery(p)
  {
    ghost var start := b.out;
    var methodName := GetMethodName(p, MethodCreate);
    var operationType := "exec";
    if p.methodParams.returning != "" {
      operationType := "one";
    }
    ghost var acc := QueryHead(methodName, operationType, "INSERT INTO ", p.table) + [Text(" (")];
    b.Write(QueryHead(methodName, operationType, "INSERT INTO ", p.table) + [Text(" (")]);
    var cols := Utils.FilterString(p.columns, p.methodParams.skipColumns);
    WriteColumns(b, cols);
    AppendAssoc(start, acc, ColumnPieces(cols, 0));
    acc := acc + ColumnPieces(cols, 0);
    b.Write([Text(")\n\tVALUES (")]);
    AppendAssoc(start, acc, [Text(")\n\tVALUES (")]);
    acc := acc + [Text(")\n\tVALUES (")];
    WriteValues(b, cols);
    AppendAssoc(start, acc, ValuePieces(cols, 0, 1));
    acc := acc + ValuePieces(cols, 0, 1);
    b.Write([Text(")")]);
    AppendAssoc(start, acc, [Text(")")]);
    acc := acc + [Text(")")];
    if p.methodParams.returning != "" {
      b.Write([Text("\n\tRETURNING *")]);
    } else {
      assert b.out == b.out + [];
    }
    AppendAssoc(start, acc, Returning(p.methodParams));
    acc := acc + Returning(p.methodParams);
    b.Write(End);
    AppendAssoc(start, acc, End);
    err := None;
  }

  // ---------------------------------------------------------------- update

  /**
   * The SET list: `"updated_at" = now()` for updated_at, `"c"=$n` with the next placeholder for
   * every other column; a long table breaks the line before every sixth entry.
   */
  function SetPieces(cols: seq<string>, i: nat, wide: bool, n: nat): Written
    requires i <= |cols|
    decreases |cols| - i
  {
    if i == |cols| then Written([], n)
    else
      var rest := SetPieces(cols, i + 1, wide, if cols[i] == "updated_at" then n else n + 1);
      Written(SetSeparator(i, wide) + SetItem(cols[i], n) + rest.pieces, rest.next)
  }

  /** The separator before entry i: none first, ", " after, and a line break before every sixth of a long table. */
  function SetSeparator(i: nat, wide: bool): seq<Piece> {
    if i > 0 then [Text(", ")] + (if wide && i % 6 == 0 then [Text("\n\t\t")] else []) else []
  }

  /** One assignment: `"updated_at" = now()`, or the column set to placeholder n. */
  function SetItem(column: string, n: nat): seq<Piece> {
    if column == "updated_at" then [Text("\"updated_at\" = now()")] else [Text(Quote(column) + "="), Param(n)]
  }

  /** The head of processUpdate's query: SET, then `WHERE "pk"=$n` with the next number n. */
  function UpdateHead(p: Params, key: string): Written {
    var cols := Utils.Without(p.columns, p.methodParams.skipColumns);
    var sets := SetPieces(cols, 0, |p.columns| > 6, 1);
    Written(QueryHead(QueryName(p, MethodUpdate), Operation(p.methodParams), "UPDATE ", p.table) + [Text("\n\tSET ")]
            + sets.pieces + KeyPredicate("\n\t", key, sets.next),
            sets.next + 1)
  }

  /** processUpdate's query: SET, then the primary predicate, then the where-params. */
  ghost function UpdateQuery(p: Params): Result<seq<Piece>, CrudError> {
    var key := PrimaryKey(p);
    if key.Err? then Err(key.error)
    else
      var head := UpdateHead(p, key.value);
      var w := WhereClauses(p, MethodUpdate, head.next);
      if w.Err? then Err(w.error) else Ok(head.pieces + w.value.pieces + Returning(p.methodParams) + End)
  }

  /** One round of processUpdate's SET loop: the separator, then the column's assignment. */
  method WriteSetEntry(b: Builder, cols: seq<string>, i: nat, wide: bool, lastIndex: nat)
    returns (next: nat, ghost step: seq<Piece>)
    requires i < |cols|
    modifies b
    ensures b.out == old(b.out) + step
    ensures SetPieces(cols, i, wide, lastIndex)
         == Written(step + SetPieces(cols, i + 1, wide, next).pieces, SetPieces(cols, i + 1, wide, next).next)
  {
    if i > 0 {
      b.Write([Text(", ")]);
      if wide && i % 6 == 0 {
        b.Write([Text("\n\t\t")]);
      }
    }
    ghost var mid := b.out;
    assert mid == old(b.out) + SetSeparator(i, wide);
    next := lastIndex;
    if cols[i] == "updated_at" {
      b.Write([Text("\"updated_at\" = now()")]);
    } else {
      b.Write([Text(Quote(cols[i]) + "="), Param(next)]);
      next := next + 1;
    }
    step := SetSeparator(i, wide) + SetItem(cols[i], lastIndex);
    AppendAssoc(old(b.out), SetSeparator(i, wide), SetItem(cols[i], lastIndex));
  }

  method WriteSet(b: Builder, cols: seq<string>, wide: bool) returns (lastIndex: nat)
    modifies b
    ensures b.out == old(b.out) + SetPieces(cols, 0, wide, 1).pieces
    ensures lastIndex == SetPieces(cols, 0, wide, 1).next
  {
    ghost var start := b.out;
    ghost var written: seq<Piece> := [];
    lastIndex := 1;
    var i := 0;
    assert SetPieces(cols, 0, wide, 1).pieces == written + SetPieces(cols, 0, wide, 1).pieces;
    while i < |cols|
      invariant 0 <= i <= |cols|
      invariant b.out == start + written
      invariant SetPieces(cols, 0, wide, 1).pieces == written + SetPieces(cols, i, wide, lastIndex).pieces
      invariant SetPieces(cols, i, wide, lastIndex).next == SetPieces(cols, 0, wide, 1).next
    {
      ghost var step;
      lastIndex, step := WriteSetEntry(b, cols, i, wide, lastIndex);
      AppendAssoc(start, written, step);
      AppendAssoc(written, step, SetPieces(cols, i + 1, wide, lastIndex).pieces);
      written := written + step;
      i := i + 1;
    }
  }

  method WriteUpdateHead(b: Builder, p: Params, primary: string) returns (lastIndex: nat)
    modifies b
    ensures b.out == old(b.out) + UpdateHead(p, primary).pieces
    ensures lastIndex == UpdateHead(p, primary).next
  {
    ghost var start := b.out;
    var methodName := GetMethodName(p, MethodUpdate);
    var operationType := "exec";
    if p.methodParams.returning != "" {
      operationType := "one";
    }
    ghost var acc := QueryHead(methodName, operationType, "UPDATE ", p.table) + [Text("\n\tSET ")];
    b.Write(QueryHead(methodName, operationType, "UPDATE ", p.table) + [Text("\n\tSET ")]);
    var cols := Utils.FilterString(p.columns, p.methodParams.skipColumns);
    lastIndex := WriteSet(b, cols, |p.columns| > 6);
    AppendAssoc(start, acc, SetPieces(cols, 0, |p.columns| > 6, 1).pieces);
    acc := acc + SetPieces(cols, 0, |p.columns| > 6, 1).pieces;
    b.Write(KeyPredicate("\n\t", primary, lastIndex));
    AppendAssoc(start, acc, KeyPredicate("\n\t", primary, lastIndex));
    lastIndex := lastIndex + 1;
  }

  method ProcessUpdate(b: Builder, p: Params) returns (err: Option<CrudError>)
    modifies b
    ensures Wrote(old(b.out), b.out, UpdateQuery(p), err)
  {
    ghost var start := b.out;
    var primary := GetPrimaryColumn(p.columns, p.table, p.tableParams.primaryColumn);
    if primary.Err? {
      return Some(primary.error);
    }
    if primary.value == "" {
      return Some(UndefinedPrimaryColumn);
    }
    var lastIndex := WriteUpdateHead(b, p, primary.value);
    ghost var acc := UpdateHead(p, primary.value).pieces;
    err, lastIndex := ProcessWhereParam(b, p, MethodUpdate, lastIndex);
    if err.Some? {
      return;
    }
    ghost var w := WhereClauses(p, MethodUpdate, UpdateHead(p, primary.value).next).value.pieces;
    AppendAssoc(start, acc, w);
    acc := acc + w;
    if p.methodParams.returning != "" {
      b.Write([Text("\n\tRETURNING *")]);
    } else {
      assert b.out == b.out + [];
    }
    AppendAssoc(start, acc, Returning(p.methodParams));
    acc := acc + Returning(p.methodParams);
    b.Write(End);
    AppendAssoc(start, acc, End);
  }

  // ---------------------------------------------------------------- delete and get

  /** A query keyed on the primary column: `WHERE "pk"=$1`, then the where-params from $2. */
  ghost function KeyedQuery(p: Params, methodType: string, head: seq<Piece>): Result<seq<Piece>, CrudError> {
    var key := PrimaryKey(p);
    if key.Err? then Err(key.error)
    else
      var w := WhereClauses(p, methodType, 2);
      if w.Err? then Err(w.error)
      else Ok(head + KeyPredicate(" ", key.value, 1) + w.value.pieces + End)
  }

  ghost function DeleteQuery(p: Params): Result<seq<Piece>, CrudError> {
    KeyedQuery(p, MethodDelete, QueryHead(QueryName(p, MethodDelete), "exec", "DELETE FROM ", p.table))
  }

  ghost function GetQuery(p: Params): Result<seq<Piece>, CrudError> {
    KeyedQuery(p, MethodGet, QueryHead(QueryName(p, MethodGet), "one", "SELECT * FROM ", p.table))
  }

  /** processDelete and processGet: they differ only in the method type and the query's head. */
  method ProcessKeyed(b: Builder, p: Params, methodType: string, head: seq<Piece>) returns (err: Option<CrudError>)
    modifies b
    ensures Wrote(old(b.out), b.out, KeyedQuery(p, methodType, head), err)
  {
    ghost var start := b.out;
    var primary := GetPrimaryColumn(p.columns, p.table, p.tableParams.primaryColumn);
    if primary.Err? {
      return Some(primary.error);
    }
    if primary.value == "" {
      return Some(UndefinedPrimaryColumn);
    }
    b.Write(head);
    var lastIndex := 1;
    b.Write(KeyPredicate(" ", primary.value, lastIndex));
    AppendAssoc(start, head, KeyPredicate(" ", primary.value, 1));
    ghost var acc := head + KeyPredicate(" ", primary.value, 1);
    lastIndex := lastIndex + 1;
    err, lastIndex := ProcessWhereParam(b, p, methodType, lastIndex);
    if err.Some? {
      return;
    }
    ghost var w := WhereClauses(p, methodType, 2).value.pieces;
    AppendAssoc(start, acc, w);
    acc := acc + w;
    b.Write(End);
    AppendAssoc(start, acc, End);
  }

  method ProcessDelete(b: Builder, p: Params) returns (err: Option<CrudError>)
    modifies b
    ensures Wrote(old(b.out), b.out, DeleteQuery(p), err)
  {
    var methodName := GetMethodName(p, MethodDelete);
    err := ProcessKeyed(b, p, MethodDelete, QueryHead(methodName, "exec", "DELETE FROM ", p.table));
  }

  method ProcessGet(b: Builder, p: Params) returns (err: Option<CrudError>)
    modifies b
    ensures Wrote(old(b.out), b.out, GetQuery(p), err)
  {
    var methodName := GetMethodName(p, MethodGet);
    err := ProcessKeyed(b, p, MethodGet, QueryHead(methodName, "one", "SELECT * FROM ", p.table));
  }

  // ---------------------------------------------------------------- find and total

  function OrderPieces(m: Config.Method): seq<Piece> {
    var order := GetOrderByParams(m);
    if order.Some? then [Text(" ORDER BY " + Quote(order.value.orderBy) + " " + order.value.direction)] else []
  }

  /** LIMIT and OFFSET on placeholders n and n+1, when a limit is configured. */
  function LimitPieces(limit: bool, n: nat): seq<Piece> {
    if limit then [Text(" LIMIT "), Param(n), Text(" OFFSET "), Param(n + 1)] else []
  }

  /** processFind's query: where-params from $1, the ordering, then LIMIT and OFFSET on the next two numbers. */
  ghost function FindQuery(p: Params): Result<seq<Piece>, CrudError> {
    var w := WhereClauses(p, MethodFind, 1);
    if w.Err? then Err(w.error)
    else
      Ok(QueryHead(QueryName(p, MethodFind), "many", "SELECT * FROM ", p.table) + w.value.pieces
         + OrderPieces(p.methodParams) + LimitPieces(p.methodParams.limit, w.value.next) + End)
  }

  method ProcessFind(b: Builder, p: Params) returns (err: Option<CrudError>)
    modifies b
    ensures Wrote(old(b.out), b.out, FindQuery(p), err)
  {
    ghost var start := b.out;
    var methodName := GetMethodName(p, MethodFind);
    b.Write(QueryHead(methodName, "many", "SELECT * FROM ", p.table));
    ghost var acc := QueryHead(methodName, "many", "SELECT * FROM ", p.table);
    var lastIndex := 1;
    err, lastIndex := ProcessWhereParam(b, p, MethodFind, lastIndex);
    if err.Some? {
      return;
    }
    ghost var w := WhereClauses(p, MethodFind, 1).value.pieces;
    AppendAssoc(start, acc, w);
    acc := acc + w;
    var order := GetOrderByParams(p.methodParams);
    if order.Some? {
      b.Write([Text(" ORDER BY " + Quote(order.value.orderBy) + " " + order.value.direction)]);
    } else {
      assert b.out == b.out + [];
    }
    AppendAssoc(start, acc, OrderPieces(p.methodParams));
    acc := acc + OrderPieces(p.methodParams);
    if p.methodParams.limit {
      b.Write([Text(" LIMIT "), Param(lastIndex), Text(" OFFSET "), Param(lastIndex + 1)]);
    } else {
      assert b.out == b.out + [];
    }
    AppendAssoc(start, acc, LimitPieces(p.methodParams.limit, lastIndex));
    acc := acc + LimitPieces(p.methodParams.limit, lastIndex);
    b.Write(End);
    AppendAssoc(start, acc, End);
  }

  /** processTotal's query: a count with the where-params from $1. */
  ghost function TotalQuery(p: Params): Result<seq<Piece>, CrudError> {
    var w := WhereClauses(p, MethodTotal, 1);
    if w.Err? then Err(w.error)
    else Ok(QueryHead(TotalName(p), "one", "SELECT count(*) as total FROM ", p.table) + w.value.pieces + End)
  }

  method ProcessTotal(b: Builder, p: Params) returns (err: Option<CrudError>)
    modifies b
    ensures Wrote(old(b.out), b.out, TotalQuery(p), err)
  {
    ghost var start := b.out;
    var methodName := GetMethodName(p, MethodTotal);
    b.Write(QueryHead(methodName, "one", "SELECT count(*) as total FROM ", p.table));
    ghost var acc := QueryHead(methodName, "one", "SELECT count(*) as total FROM ", p.table);
    var lastIndex := 1;
    err, lastIndex := ProcessWhereParam(b, p, MethodTotal, lastIndex);
    if err.Some? {
      return;
    }
    ghost var w := WhereClauses(p, MethodTotal, 1).value.pieces;
    AppendAssoc(start, acc, w);
    acc := acc + w;
    b.Write(End);
    AppendAssoc(start, acc, End);
  }

  // ---------------------------------------------------------------- process

  /** The query of one method type; a type without a generator writes nothing. */
  ghost function MethodQuery(methodType: string, p: Params): Result<seq<Piece>, CrudError> {
    if methodType == MethodCreate then Ok(CreateQuery(p))
    else if methodType == MethodUpdate then UpdateQuery(p)
    else if methodType == MethodDelete then DeleteQuery(p)
    else if methodType == MethodGet then GetQuery(p)
    else if methodType == MethodFind then FindQuery(p)
    else if methodType == MethodTotal then TotalQuery(p)
    else Ok([])
  }

  function Then(ps: seq<Piece>, r: Result<seq<Piece>, CrudError>): Result<seq<Piece>, CrudError> {
    if r.Err? then r else Ok(ps + r.value)
  }

  /** The queries of one table's methods keys[i..], an error wrapped with the method and table. */
  ghost function TableQueries(keys: seq<string>, i: nat, table: string, columns: seq<string>, tp: TableParams)
    : Result<seq<Piece>, CrudError>
    requires i <= |keys|
    requires forall k :: k in keys ==> k in tp.methods
    decreases |keys| - i
  {
    if i == |keys| then Ok([])
    else
      var q := MethodQuery(keys[i], Params(table, columns, tp.methods[keys[i]], tp));
      if q.Err? then Err(WhileProcess(keys[i], table, q.error))
      else Then(q.value, TableQueries(keys, i + 1, table, columns, tp))
  }

  /** The queries of the tables keys[i..]; a table the database lacks is an error. */
  ghost function ProcessQueries(keys: seq<string>, i: nat, tables: map<string, TableParams>, meta: map<string, seq<string>>)
    : Result<seq<Piece>, CrudError>
    requires i <= |keys|
    requires forall k :: k in keys ==> k in tables
    decreases |keys| - i
  {
    if i == |keys| then Ok([])
    else if keys[i] !in meta then Err(MissingTable(keys[i]))
    else
      var tp := tables[keys[i]];
      var t := AllTableQueries(keys[i], meta[keys[i]], tp);
      if t.Err? then t else Then(t.value, ProcessQueries(keys, i + 1, tables, meta))
  }

  /** The queries of all of one table's methods, in ascending method-type order. */
  ghost function AllTableQueries(table: string, columns: seq<string>, tp: TableParams): Result<seq<Piece>, CrudError> {
    SortedSetStrict(tp.methods.Keys);
    TableQueries(SortedSet(tp.methods.Keys), 0, table, columns, tp)
  }

  ghost function AllQueries(tables: map<string, TableParams>, meta: map<string, seq<string>>): Result<seq<Piece>, CrudError> {
    SortedSetStrict(tables.Keys);
    ProcessQueries(SortedSet(tables.Keys), 0, tables, meta)
  }

  /** One table of process: a table missing from the metadata ends the result, otherwise its queries come first. */
  lemma ProcessQueriesStep(keys: seq<string>, i: nat, tables: map<string, TableParams>, meta: map<string, seq<string>>)
    requires i < |keys| && forall k :: k in keys ==> k in tables
    ensures keys[i] !in meta ==> ProcessQueries(keys, i, tables, meta) == Err(MissingTable(keys[i]))
    ensures keys[i] in meta ==>
      var q := AllTableQueries(keys[i], meta[keys[i]], tables[keys[i]]);
      ProcessQueries(keys, i, tables, meta) == (if q.Err? then q else Then(q.value, ProcessQueries(keys, i + 1, tables, meta)))
  {
  }

  lemma ThenNothing(r: Result<seq<Piece>, CrudError>)
    ensures Then([], r) == r
  {
    if r.Ok? {
      assert [] + r.value == r.value;
    }
  }

  lemma ThenTwice(a: seq<Piece>, b: seq<Piece>, r: Result<seq<Piece>, CrudError>)
    ensures Then(a, Then(b, r)) == Then(a + b, r)
  {
    if r.Ok? {
      assert a + (b + r.value) == (a + b) + r.value;
    }
  }

  method ProcessMethod(b: Builder, methodType: string, p: Params) returns (err: Option<CrudError>)
    modifies b
    ensures Wrote(old(b.out), b.out, MethodQuery(methodType, p), err)
  {
    err := None;
    if methodType == MethodCreate {
      err := ProcessCreate(b, p);
    } else if methodType == MethodUpdate {
      err := ProcessUpdate(b, p);
    } else if methodType == MethodDelete {
      err := ProcessDelete(b, p);
    } else if methodType == MethodGet {
      err := ProcessGet(b, p);
    } else if methodType == MethodFind {
      err := ProcessFind(b, p);
    } else if methodType == MethodTotal {
      err := ProcessTotal(b, p);
    }
  }

  /**
   * One round of processTable's loop: a failing method ends the table's queries with the wrapped
   * error, a succeeding one extends what was written.
   */
  lemma TableStep(start: seq<Piece>, written: seq<Piece>, keys: seq<string>, i: nat, table: string,
                  columns: seq<string>, tp: TableParams, out: seq<Piece>, e: Option<CrudError>)
    requires i < |keys| && forall k :: k in keys ==> k in tp.methods
    requires TableQueries(keys, 0, table, columns, tp) == Then(written, TableQueries(keys, i, table, columns, tp))
    requires Wrote(start + written, out, MethodQuery(keys[i], Params(table, columns, tp.methods[keys[i]], tp)), e)
    ensures e.Some? ==> Wrote(start, out, TableQueries(keys, 0, table, columns, tp), Some(WhileProcess(keys[i], table, e.value)))
    ensures e.None? ==> exists q :: (out == start + (written + q)
                                     && TableQueries(keys, 0, table, columns, tp) == Then(written + q, TableQueries(keys, i + 1, table, columns, tp)))
  {
    var q := MethodQuery(keys[i], Params(table, columns, tp.methods[keys[i]], tp));
    if e.None? {
      AppendAssoc(start, written, q.value);
      ThenTwice(written, q.value, TableQueries(keys, i + 1, table, columns, tp));
    }
  }

  /** The methods keys[i..] of one table, in the order given. */
  method ProcessMethods(b: Builder, keys: seq<string>, table: string, columns: seq<string>, tp: TableParams)
    returns (err: Option<CrudError>)
    requires forall k :: k in keys ==> k in tp.methods
    modifies b
    ensures Wrote(old(b.out), b.out, TableQueries(keys, 0, table, columns, tp), err)
  {
    ghost var start := b.out;
    ghost var written: seq<Piece> := [];
    ThenNothing(TableQueries(keys, 0, table, columns, tp));
    var i := 0;
    while i < |keys|
      invariant 0 <= i <= |keys|
      invariant b.out == start + written
      invariant TableQueries(keys, 0, table, columns, tp) == Then(written, TableQueries(keys, i, table, columns, tp))
    {
      var p := Params(table, columns, tp.methods[keys[i]], tp);
      var e := ProcessMethod(b, keys[i], p);
      TableStep(start, written, keys, i, table, columns, tp, b.out, e);
      if e.Some? {
        return Some(WhileProcess(keys[i], table, e.value));
      }
      ghost var q :| b.out == start + (written + q)
                     && TableQueries(keys, 0, table, columns, tp) == Then(written + q, TableQueries(keys, i + 1, table, columns, tp));
      written := written + q;
      i := i + 1;
    }
    err := None;
  }

  /** The inner loop of process: one table's methods in ascending method-type order. */
  method ProcessTable(b: Builder, table: string, columns: seq<string>, tp: TableParams) returns (err: Option<CrudError>)
    modifies b
    ensures Wrote(old(b.out), b.out, AllTableQueries(table, columns, tp), err)
  {
    SortedSetStrict(tp.methods.Keys);
    var keys := Fields.CollectKeys(tp.methods);
    keys := SortStrings(keys);
    Fields.KeysAreSortedSet(tp.methods, keys);
    err := ProcessMethods(b, keys, table, columns, tp);
  }

  /** process's answer is the queries of the table names in ascending order. */
  lemma AllQueriesInOrder(tables: map<string, TableParams>, meta: map<string, seq<string>>, keys: seq<string>)
    requires keys == SortedSet(tables.Keys)
    ensures forall k :: k in keys ==> k in tables
    ensures AllQueries(tables, meta) == ProcessQueries(keys, 0, tables, meta)
  {
    SortedSetStrict(tables.Keys);
  }

  /** One table of process's loop, stated against everything written so far. */
  lemma TablesStep(start: seq<Piece>, written: seq<Piece>, keys: seq<string>, i: nat,
                   tables: map<string, TableParams>, meta: map<string, seq<string>>,
                   out: seq<Piece>, e: Option<CrudError>)
    requires i < |keys| && forall k :: k in keys ==> k in tables
    requires ProcessQueries(keys, 0, tables, meta) == Then(written, ProcessQueries(keys, i, tables, meta))
    requires keys[i] !in meta ==> e == Some(MissingTable(keys[i])) && out == start + written
    requires keys[i] in meta ==> Wrote(start + written, out, AllTableQueries(keys[i], meta[keys[i]], tables[keys[i]]), e)
    ensures e.Some? ==> Wrote(start, out, ProcessQueries(keys, 0, tables, meta), e)
    ensures e.None? ==> keys[i] in meta
    ensures e.None? ==> var q := AllTableQueries(keys[i], meta[keys[i]], tables[keys[i]]).value;
      out == start + (written + q)
      && ProcessQueries(keys, 0, tables, meta) == Then(written + q, ProcessQueries(keys, i + 1, tables, meta))
  {
    ProcessQueriesStep(keys, i, tables, meta);
    if keys[i] in meta {
      var q := AllTableQueries(keys[i], meta[keys[i]], tables[keys[i]]);
      if q.Ok? {
        AppendAssoc(start, written, q.value);
        ThenTwice(written, q.value, ProcessQueries(keys, i + 1, tables, meta));
      }
    }
  }

  /** The loop of process over the table names keys, in the order given. */
  method ProcessTables(b: Builder, keys: seq<string>, tables: map<string, TableParams>, meta: map<string, seq<string>>)
    returns (err: Option<CrudError>)
    requires forall k :: k in keys ==> k in tables
    modifies b
    ensures Wrote(old(b.out), b.out, ProcessQueries(keys, 0, tables, meta), err)
  {
    ghost var start := b.out;
    ghost var written: seq<Piece> := [];
    ThenNothing(ProcessQueries(keys, 0, tables, meta));
    var i := 0;
    while i < |keys|
      invariant 0 <= i <= |keys|
      invariant b.out == start + written
      invariant ProcessQueries(keys, 0, tables, meta) == Then(written, ProcessQueries(keys, i, tables, meta))
    {
      var tableName := keys[i];
      var metaData := Tables.GetTableMetaData(meta, tableName);
      var e: Option<CrudError>;
      if metaData.None? {
        e := Some(MissingTable(tableName));
      } else {
        e := ProcessTable(b, tableName, metaData.value, tables[tableName]);
      }
      TablesStep(start, written, keys, i, tables, meta, b.out, e);
      if e.Some? {
        return e;
      }
      written := written + AllTableQueries(tableName, meta[tableName], tables[tableName]).value;
      i := i + 1;
    }
    err := None;
  }

  /**
   * process, after the metadata is read: the configured tables in ascending name order, each
   * looked up in the metadata; the result is the builder's text.
   */
  method Process(tables: map<string, TableParams>, meta: map<string, seq<string>>) returns (r: Result<seq<Piece>, CrudError>)
    ensures r == AllQueries(tables, meta)
  {
    var b := new Builder();
    var keys := Fields.SortedKeys(tables);
    AllQueriesInOrder(tables, meta, keys);
    var e := ProcessTables(b, keys, tables, meta);
    ghost var all := ProcessQueries(keys, 0, tables, meta);
    assert Wrote([], b.out, all, e);
    if e.Some? {
      assert all.Err?;
      return Err(e.value);
    }
    assert all.Ok?;
    assert [] + all.value == all.value;
    r := Ok(b.out);
  }
}
