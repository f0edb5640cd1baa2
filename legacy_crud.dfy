/**
 * The older CRUD generator (internal/pgxgen/crud.go): for every table of the database, six fixed
 * queries with `id` as the key column, appended to one builder.  The placeholder counter starts
 * at 1 in every query; where-params come from the configuration as an ordered list.
 */
module LegacyCrud {
  import opened Wrappers
  import opened Strings
  import opened Sql
  import Crud

  const SkipTables: seq<string> := ["spatial_ref_sys", "schema_migrations"]
  const SkipCreateColumns: seq<string> := ["id", "updated_at"]
  const SkipUpdateColumns: seq<string> := ["id", "created_at"]

  /** stringArr.exist: a linear search for v. */
  method Exist(s: seq<string>, v: string) returns (r: bool)
    ensures r <==> v in s
  {
    var i := 0;
    while i < |s|
      invariant 0 <= i <= |s|
      invariant v !in s[..i]
    {
      if s[i] == v {
        return true;
      }
      i := i + 1;
    }
    return false;
  }

  datatype Order = Order(column: string, direction: string)

  /**
   * processCRUDParams without the builder: the table and its columns in database order, and
   * the configuration's answers for the table — the where-params of update, delete, get and
   * find (method "f"), those of total (method "t"), the ordering and whether find is paged.
   */
  datatype Params = Params(table: string, columns: seq<string>, where: seq<string>, totalWhere: seq<string>,
                           orderBy: Option<Order>, limit: bool)

  type Written = Crud.Written
  type Error = Crud.CrudError

  // ---------------------------------------------------------------- processWhereParam

  /** One predicate: the param, unquoted, compared with placeholder n. */
  function Predicate(param: string, n: nat): seq<Piece> {
    [Text(param + "="), Param(n)]
  }

  /** The predicates of params[i..]: WHERE before the very first, AND before the others, one placeholder each. */
  function WherePieces(params: seq<string>, i: nat, p: Params, n: nat): Result<Written, Error>
    requires i <= |params|
    decreases |params| - i
  {
    if i == |params| then Ok(Crud.Written([], n))
    else if params[i] !in p.columns then Err(Crud.NoSuchParam(params[i], p.table))
    else
      Crud.Prepend(Crud.Connective(if i == 0 then "WHERE" else "AND") + Predicate(params[i], n),
                   WherePieces(params, i + 1, p, n + 1))
  }

  /** One round of processWhereParam's loop, for a param that is a column. */
  method WritePredicate(b: Builder, params: seq<string>, i: nat, p: Params, conn: string, lastIndex: nat)
    returns (ghost step: seq<Piece>)
    requires i < |params| && params[i] in p.columns
    requires conn == if i == 0 then "WHERE" else "AND"
    modifies b
    ensures b.out == old(b.out) + step
    ensures WherePieces(params, i, p, lastIndex) == Crud.Prepend(step, WherePieces(params, i + 1, p, lastIndex + 1))
  {
    b.Write(Crud.Connective(conn));
    b.Write(Predicate(params[i], lastIndex));
    step := Crud.Connective(conn) + Predicate(params[i], lastIndex);
    AppendAssoc(old(b.out), Crud.Connective(conn), Predicate(params[i], lastIndex));
  }

  /** processWhereParam: the configured params in their order, each one a column. */
  method ProcessWhereParam(b: Builder, p: Params, params: seq<string>, lastIndex: nat)
    returns (err: Option<Error>, next: nat)
    modifies b
    ensures var w := WherePieces(params, 0, p, lastIndex);
      (w.Ok? ==> err.None? && b.out == old(b.out) + w.value.pieces && next == w.value.next)
      && (w.Err? ==> err == Some(w.error))
  {
    next := lastIndex;
    err := None;
    if |params| > 0 {
      ghost var start := b.out;
      ghost var written: seq<Piece> := [];
      Crud.PrependNothing(WherePieces(params, 0, p, lastIndex));
      var index := 0;
      while index < |params|
        invariant 0 <= index <= |params|
        invariant b.out == start + written
        invariant WherePieces(params, 0, p, lastIndex) == Crud.Prepend(written, WherePieces(params, index, p, next))
      {
        var param := params[index];
        var found := Exist(p.columns, param);
        if !found {
          return Some(Crud.NoSuchParam(param, p.table)), next;
        }
        var conn := if index == 0 then "WHERE" else "AND";
        ghost var step := WritePredicate(b, params, index, p, conn, next);
        AppendAssoc(start, written, step);
        Crud.PrependTwice(written, step, WherePieces(params, index + 1, p, next + 1));
        written := written + step;
        next := next + 1;
        index := index + 1;
      }
    } else {
      assert b.out == b.out + [];
    }
  }

  // ---------------------------------------------------------------- create

  /** The separator a loop writes before entry i of n entries when `open` holds: ", " except before the last. */
  function Comma(open: bool, i: nat, count: nat): seq<Piece> {
    if open && i + 1 != count then [Text(", ")] else []
  }

  /** The column list: an entry from the third on gets a comma unless it is the last; id and updated_at are left out. */
  function ColumnPieces(cols: seq<string>, i: nat): seq<Piece>
    requires i <= |cols|
    decreases |cols| - i
  {
    if i == |cols| then []
    else
      Comma(i > 1, i, |cols|) + (if cols[i] in SkipCreateColumns then [] else [Text(Crud.Quote(cols[i]))])
      + ColumnPieces(cols, i + 1)
  }

  /** One inserted value: now() for created_at, nothing for id and updated_at, else placeholder n. */
  function ValueItem(column: string, n: nat): seq<Piece> {
    if column == "created_at" then [Text("now()")]
    else if column in SkipCreateColumns then []
    else [Param(n)]
  }

  /** Whether a column takes a placeholder in the VALUES list. */
  predicate Inserted(column: string) {
    column != "created_at" && column !in SkipCreateColumns
  }

  /** The VALUES list, a comma written before every entry once a placeholder is used, except the last. */
  function ValuePieces(cols: seq<string>, i: nat, n: nat): Written
    requires i <= |cols|
    decreases |cols| - i
  {
    if i == |cols| then Crud.Written([], n)
    else
      var rest := ValuePieces(cols, i + 1, if Inserted(cols[i]) then n + 1 else n);
      Crud.Written(Comma(n > 1, i, |cols|) + ValueItem(cols[i], n) + rest.pieces, rest.next)
  }

  /** The number of columns of cols[i..] that take a placeholder in the VALUES list. */
  function InsertedCount(cols: seq<string>, i: nat): nat
    requires i <= |cols|
    decreases |cols| - i
  {
    if i == |cols| then 0 else (if Inserted(cols[i]) then 1 else 0) + InsertedCount(cols, i + 1)
  }

  const CreateTail: seq<Piece> := [Text(")\n\tRETURNING *;\n\n")]

  /** processCreate's query, always `:one` with RETURNING *. */
  function CreateQuery(p: Params): seq<Piece> {
    Crud.QueryHead(Crud.MethodName(Crud.MethodCreate, p.table), "one", "INSERT INTO ", p.table) + [Text(" (")]
    + ColumnPieces(p.columns, 0) + [Text(")\n\tVALUES (")] + ValuePieces(p.columns, 0, 1).pieces + CreateTail
  }

  method WriteColumns(b: Builder, cols: seq<string>)
    modifies b
    ensures b.out == old(b.out) + ColumnPieces(cols, 0)
  {
    ghost var start := b.out;
    var index := 0;
    while index < |cols|
      invariant 0 <= index <= |cols|
      invariant b.out + ColumnPieces(cols, index) == start + ColumnPieces(cols, 0)
    {
      ghost var before := b.out;
      if index > 1 && index != |cols| - 1 {
        b.Write([Text(", ")]);
      }
      var skip := Exist(SkipCreateColumns, cols[index]);
      if !skip {
        b.Write([Text(Crud.Quote(cols[index]))]);
      }
      assert b.out + ColumnPieces(cols, index + 1) == before + ColumnPieces(cols, index);
      index := index + 1;
    }
  }

  /** One round of processCreate's VALUES loop. */
  method WriteValue(b: Builder, cols: seq<string>, i: nat, lastIndex: nat) returns (next: nat, ghost step: seq<Piece>)
    requires i < |cols|
    modifies b
    ensures b.out == old(b.out) + step
    ensures ValuePieces(cols, i, lastIndex)
         == Crud.Written(step + ValuePieces(cols, i + 1, next).pieces, ValuePieces(cols, i + 1, next).next)
  {
    if lastIndex > 1 && i != |cols| - 1 {
      b.Write([Text(", ")]);
    }
    ghost var sep := Comma(lastIndex > 1, i, |cols|);
    assert b.out == old(b.out) + sep;
    next := lastIndex;
    var skip := Exist(SkipCreateColumns, cols[i]);
    if cols[i] == "created_at" {
      b.Write([Text("now()")]);
    } else if !skip {
      b.Write([Param(next)]);
      next := next + 1;
    }
    step := sep + ValueItem(cols[i], lastIndex);
    AppendAssoc(old(b.out), sep, ValueItem(cols[i], lastIndex));
  }

  method WriteValues(b: Builder, cols: seq<string>)
    modifies b
    ensures b.out == old(b.out) + ValuePieces(cols, 0, 1).pieces
  {
    ghost var start := b.out;
    ghost var written: seq<Piece> := [];
    var lastIndex := 1;
    var index := 0;
    assert ValuePieces(cols, 0, 1).pieces == written + ValuePieces(cols, 0, 1).pieces;
    while index < |cols|
      invariant 0 <= index <= |cols|
      invariant b.out == start + written
      invariant ValuePieces(cols, 0, 1).pieces == written + ValuePieces(cols, index, lastIndex).pieces
    {
      ghost var step;
      lastIndex, step := WriteValue(b, cols, index, lastIndex);
      AppendAssoc(start, written, step);
      AppendAssoc(written, step, ValuePieces(cols, index + 1, lastIndex).pieces);
      written := written + step;
      index := index + 1;
    }
  }

  method ProcessCreate(b: Builder, p: Params)
    modifies b
    ensures b.out == old(b.out) + CreateQuery(p)
  {
    ghost var start := b.out;
    var methodName := Crud.MethodName(Crud.MethodCreate, p.table);
    ghost var acc := Crud.QueryHead(methodName, "one", "INSERT INTO ", p.table) + [Text(" (")];
    b.Write(Crud.QueryHead(methodName, "one", "INSERT INTO ", p.table) + [Text(" (")]);
    WriteColumns(b, p.columns);
    AppendAssoc(start, acc, ColumnPieces(p.columns, 0));
    acc := acc + ColumnPieces(p.columns, 0);
    b.Write([Text(")\n\tVALUES (")]);
    AppendAssoc(start, acc, [Text(")\n\tVALUES (")]);
    acc := acc + [Text(")\n\tVALUES (")];
    WriteValues(b, p.columns);
    AppendAssoc(start, acc, ValuePieces(p.columns, 0, 1).pieces);
    acc := acc + ValuePieces(p.columns, 0, 1).pieces;
    b.Write(CreateTail);
    AppendAssoc(start, acc, CreateTail);
  }

  // ---------------------------------------------------------------- update

  /** The separator before a SET entry once a placeholder is used, with a line break when n is a multiple of six. */
  function SetSeparator(open: bool, i: nat, count: nat, wide: bool, n: nat): seq<Piece> {
    if open && i + 1 != count then [Text(", ")] + (if wide && n % 6 == 0 then [Text("\n\t\t")] else []) else []
  }

  /** One assignment: `"updated_at" = now()`, nothing for id and created_at, else the column set to placeholder n. */
  function SetItem(column: string, n: nat): seq<Piece> {
    if column == "updated_at" then [Text("\"updated_at\" = now()")]
    else if column in SkipUpdateColumns then []
    else [Text(Crud.Quote(column) + "="), Param(n)]
  }

  /** Whether a column takes a placeholder in the SET list. */
  predicate Assigned(column: string) {
    column != "updated_at" && column !in SkipUpdateColumns
  }

  /** The number of columns of cols[i..] that take a placeholder in the SET list. */
  function AssignedCount(cols: seq<string>, i: nat): nat
    requires i <= |cols|
    decreases |cols| - i
  {
    if i == |cols| then 0 else (if Assigned(cols[i]) then 1 else 0) + AssignedCount(cols, i + 1)
  }

  function SetPieces(cols: seq<string>, i: nat, wide: bool, n: nat): Written
    requires i <= |cols|
    decreases |cols| - i
  {
    if i == |cols| then Crud.Written([], n)
    else
      var rest := SetPieces(cols, i + 1, wide, if Assigned(cols[i]) then n + 1 else n);
      Crud.Written(SetSeparator(n > 1, i, |cols|, wide, n) + SetItem(cols[i], n) + rest.pieces, rest.next)
  }

  /** The id predicate `<lead><keyword> id=$n`. */
  function IdPredicate(lead: string, keyword: string, n: nat): seq<Piece> {
    [Text(lead), Keyword(keyword), Text(" id="), Param(n)]
  }

  /** The head of processUpdate's query: the SET list, then a line break. */
  function UpdateHead(p: Params): Written {
    var sets := SetPieces(p.columns, 0, |p.columns| > 6, 1);
    Crud.Written(Crud.QueryHead(Crud.MethodName(Crud.MethodUpdate, p.table), "one", "UPDATE ", p.table)
                 + [Text("\n\tSET ")] + sets.pieces + [Text("\n\t")], sets.next)
  }

  const UpdateTail: seq<Piece> := [Text("\n\tRETURNING *;\n\n")]

  /** As written: WHERE before the id predicate only when the counter is still 1. */
  function UpdateIdAsWritten(next: nat): seq<Piece> {
    if next == 1 then IdPredicate("", "WHERE", next) else IdPredicate(" ", "AND", next)
  }

  /** As evidently intended: WHERE before the id predicate exactly when no where-param was written. */
  function UpdateId(head: nat, next: nat): seq<Piece> {
    if next == head then IdPredicate("", "WHERE", next) else IdPredicate(" ", "AND", next)
  }

  ghost function UpdateQueryAsWritten(p: Params): Result<seq<Piece>, Error> {
    var head := UpdateHead(p);
    var w := WherePieces(p.where, 0, p, head.next);
    if w.Err? then Err(w.error) else Ok(head.pieces + w.value.pieces + UpdateIdAsWritten(w.value.next) + UpdateTail)
  }

  ghost function UpdateQuery(p: Params): Result<seq<Piece>, Error> {
    var head := UpdateHead(p);
    var w := WherePieces(p.where, 0, p, head.next);
    if w.Err? then Err(w.error) else Ok(head.pieces + w.value.pieces + UpdateId(head.next, w.value.next) + UpdateTail)
  }

  /** One round of processUpdate's SET loop. */
  method WriteSetEntry(b: Builder, cols: seq<string>, i: nat, wide: bool, lastIndex: nat)
    returns (next: nat, ghost step: seq<Piece>)
    requires i < |cols|
    modifies b
    ensures b.out == old(b.out) + step
    ensures SetPieces(cols, i, wide, lastIndex)
         == Crud.Written(step + SetPieces(cols, i + 1, wide, next).pieces, SetPieces(cols, i + 1, wide, next).next)
  {
    if lastIndex > 1 && i != |cols| - 1 {
      b.Write([Text(", ")]);
      if wide && lastIndex % 6 == 0 {
        b.Write([Text("\n\t\t")]);
      }
    }
    ghost var sep := SetSeparator(lastIndex > 1, i, |cols|, wide, lastIndex);
    assert b.out == old(b.out) + sep;
    next := lastIndex;
    var skip := Exist(SkipUpdateColumns, cols[i]);
    if cols[i] == "updated_at" {
      b.Write([Text("\"updated_at\" = now()")]);
    } else if !skip {
      b.Write([Text(Crud.Quote(cols[i]) + "="), Param(next)]);
      next := next + 1;
    }
    step := sep + SetItem(cols[i], lastIndex);
    AppendAssoc(old(b.out), sep, SetItem(cols[i], lastIndex));
  }

  method WriteSet(b: Builder, cols: seq<string>, wide: bool) returns (lastIndex: nat)
    modifies b
    ensures b.out == old(b.out) + SetPieces(cols, 0, wide, 1).pieces
    ensures lastIndex == SetPieces(cols, 0, wide, 1).next
  {
    ghost var start := b.out;
    ghost var written: seq<Piece> := [];
    lastIndex := 1;
    var i := 0;
    assert SetPieces(cols, 0, wide, 1).pieces == [] + SetPieces(cols, 0, wide, 1).pieces;
    while i < |cols|
      invariant 0 <= i <= |cols|
      invariant b.out == start + written
      invariant SetPieces(cols, 0, wide, 1).pieces == written + SetPieces(cols, i, wide, lastIndex).pieces
      invariant SetPieces(cols, i, wide, lastIndex).next == SetPieces(cols, 0, wide, 1).next
    {
      ghost var step;
      ghost var current := SetPieces(cols, i, wide, lastIndex);
      lastIndex, step := WriteSetEntry(b, cols, i, wide, lastIndex);
      AppendAssoc(start, written, step);
      WrittenStep(SetPieces(cols, 0, wide, 1), written, current, step, SetPieces(cols, i + 1, wide, lastIndex));
      written := written + step;
      i := i + 1;
    }
    SetDone(written, cols, wide, lastIndex);
  }

  /** Moving one written step from what remains to what is written keeps the whole the same. */
  lemma WrittenStep(whole: Crud.Written, written: seq<Piece>, current: Crud.Written, step: seq<Piece>, rest: Crud.Written)
    requires whole.pieces == written + current.pieces && current.next == whole.next
    requires current == Crud.Written(step + rest.pieces, rest.next)
    ensures whole.pieces == (written + step) + rest.pieces && rest.next == whole.next
  {
    AppendAssoc(written, step, rest.pieces);
  }

  /** Past the last column, the SET list is exactly what was written. */
  lemma SetDone(written: seq<Piece>, cols: seq<string>, wide: bool, n: nat)
    ensures written + SetPieces(cols, |cols|, wide, n).pieces == written
    ensures SetPieces(cols, |cols|, wide, n).next == n
  {
    assert written + [] == written;
  }

  method WriteUpdateHead(b: Builder, p: Params) returns (lastIndex: nat)
    modifies b
    ensures b.out == old(b.out) + UpdateHead(p).pieces
    ensures lastIndex == UpdateHead(p).next
  {
    ghost var start := b.out;
    var methodName := Crud.MethodName(Crud.MethodUpdate, p.table);
    ghost var acc := Crud.QueryHead(methodName, "one", "UPDATE ", p.table) + [Text("\n\tSET ")];
    b.Write(Crud.QueryHead(methodName, "one", "UPDATE ", p.table) + [Text("\n\tSET ")]);
    lastIndex := WriteSet(b, p.columns, |p.columns| > 6);
    AppendAssoc(start, acc, SetPieces(p.columns, 0, |p.columns| > 6, 1).pieces);
    acc := acc + SetPieces(p.columns, 0, |p.columns| > 6, 1).pieces;
    b.Write([Text("\n\t")]);
    AppendAssoc(start, acc, [Text("\n\t")]);
  }

  /** processUpdate, with WHERE before the id predicate exactly when no where-param precedes it. */
  method ProcessUpdate(b: Builder, p: Params) returns (err: Option<Error>)
    modifies b
    ensures Crud.Wrote(old(b.out), b.out, UpdateQuery(p), err)
  {
    ghost var start := b.out;
    var head := WriteUpdateHead(b, p);
    ghost var acc := UpdateHead(p).pieces;
    var lastIndex;
    err, lastIndex := ProcessWhereParam(b, p, p.where, head);
    if err.Some? {
      return;
    }
    ghost var w := WherePieces(p.where, 0, p, head).value.pieces;
    AppendAssoc(start, acc, w);
    acc := acc + w;
    if lastIndex == head {
      b.Write(IdPredicate("", "WHERE", lastIndex));
    } else {
      b.Write(IdPredicate(" ", "AND", lastIndex));
    }
    AppendAssoc(start, acc, UpdateId(head, lastIndex));
    acc := acc + UpdateId(head, lastIndex);
    b.Write(UpdateTail);
    AppendAssoc(start, acc, UpdateTail);
  }

  // ---------------------------------------------------------------- delete and get

  /** ` WHERE id=$1` when no where-param was written, ` AND id=$n` after them. */
  function KeyId(next: nat): seq<Piece> {
    if next == 1 then IdPredicate(" ", "WHERE", next) else IdPredicate(" ", "AND", next)
  }

  /** processDelete and processGet: the where-params from $1, then the id predicate on the next number. */
  ghost function KeyedQuery(p: Params, head: seq<Piece>): Result<seq<Piece>, Error> {
    var w := WherePieces(p.where, 0, p, 1);
    if w.Err? then Err(w.error) else Ok(head + w.value.pieces + KeyId(w.value.next) + Crud.End)
  }

  ghost function DeleteQuery(p: Params): Result<seq<Piece>, Error> {
    KeyedQuery(p, Crud.QueryHead(Crud.MethodName(Crud.MethodDelete, p.table), "exec", "DELETE FROM ", p.table))
  }

  ghost function GetQuery(p: Params): Result<seq<Piece>, Error> {
    KeyedQuery(p, Crud.QueryHead(Crud.MethodName(Crud.MethodGet, p.table), "one", "SELECT * FROM ", p.table))
  }

  method ProcessKeyed(b: Builder, p: Params, head: seq<Piece>) returns (err: Option<Error>)
    modifies b
    ensures Crud.Wrote(old(b.out), b.out, KeyedQuery(p, head), err)
  {
    ghost var start := b.out;
    b.Write(head);
    var lastIndex := 1;
    err, lastIndex := ProcessWhereParam(b, p, p.where, lastIndex);
    if err.Some? {
      return;
    }
    ghost var w := WherePieces(p.where, 0, p, 1).value.pieces;
    AppendAssoc(start, head, w);
    ghost var acc := head + w;
    if lastIndex == 1 {
      b.Write(IdPredicate(" ", "WHERE", lastIndex));
    } else {
      b.Write(IdPredicate(" ", "AND", lastIndex));
    }
    AppendAssoc(start, acc, KeyId(lastIndex));
    acc := acc + KeyId(lastIndex);
    b.Write(Crud.End);
    AppendAssoc(start, acc, Crud.End);
  }

  method ProcessDelete(b: Builder, p: Params) returns (err: Option<Error>)
    modifies b
    ensures Crud.Wrote(old(b.out), b.out, DeleteQuery(p), err)
  {
    var methodName := Crud.MethodName(Crud.MethodDelete, p.table);
    err := ProcessKeyed(b, p, Crud.QueryHead(methodName, "exec", "DELETE FROM ", p.table));
  }

  method ProcessGet(b: Builder, p: Params) returns (err: Option<Error>)
    modifies b
    ensures Crud.Wrote(old(b.out), b.out, GetQuery(p), err)
  {
    var methodName := Crud.MethodName(Crud.MethodGet, p.table);
    err := ProcessKeyed(b, p, Crud.QueryHead(methodName, "one", "SELECT * FROM ", p.table));
  }

  // ---------------------------------------------------------------- find and total

  /** ` ORDER BY <by> <order>`, unquoted, when an ordering is configured. */
  function OrderPieces(orderBy: Option<Order>): seq<Piece> {
    if orderBy.Some? then [Text(" ORDER BY " + orderBy.value.column + " " + orderBy.value.direction)] else []
  }

  ghost function FindQuery(p: Params): Result<seq<Piece>, Error> {
    var w := WherePieces(p.where, 0, p, 1);
    if w.Err? then Err(w.error)
    else
      Ok(Crud.QueryHead(Crud.MethodName(Crud.MethodFind, p.table), "many", "SELECT * FROM ", p.table)
         + w.value.pieces + OrderPieces(p.orderBy) + Crud.LimitPieces(p.limit, w.value.next) + Crud.End)
  }

  method ProcessFind(b: Builder, p: Params) returns (err: Option<Error>)
    modifies b
    ensures Crud.Wrote(old(b.out), b.out, FindQuery(p), err)
  {
    ghost var start := b.out;
    var methodName := Crud.MethodName(Crud.MethodFind, p.table);
    b.Write(Crud.QueryHead(methodName, "many", "SELECT * FROM ", p.table));
    ghost var acc := Crud.QueryHead(methodName, "many", "SELECT * FROM ", p.table);
    var lastIndex := 1;
    err, lastIndex := ProcessWhereParam(b, p, p.where, lastIndex);
    if err.Some? {
      return;
    }
    ghost var w := WherePieces(p.where, 0, p, 1).value.pieces;
    AppendAssoc(start, acc, w);
    acc := acc + w;
    if p.orderBy.Some? {
      b.Write([Text(" ORDER BY " + p.orderBy.value.column + " " + p.orderBy.value.direction)]);
    } else {
      assert b.out == b.out + [];
    }
    AppendAssoc(start, acc, OrderPieces(p.orderBy));
    acc := acc + OrderPieces(p.orderBy);
    if p.limit {
      b.Write([Text(" LIMIT "), Param(lastIndex), Text(" OFFSET "), Param(lastIndex + 1)]);
    } else {
      assert b.out == b.out + [];
    }
    AppendAssoc(start, acc, Crud.LimitPieces(p.limit, lastIndex));
    acc := acc + Crud.LimitPieces(p.limit, lastIndex);
    b.Write(Crud.End);
    AppendAssoc(start, acc, Crud.End);
  }

  /** processTotal's query: a count with total's own where-params from $1. */
  ghost function TotalQuery(p: Params): Result<seq<Piece>, Error> {
    var w := WherePieces(p.totalWhere, 0, p, 1);
    if w.Err? then Err(w.error)
    else
      Ok(Crud.QueryHead(Crud.MethodName(Crud.MethodTotal, p.table), "one", "SELECT count(*) as total FROM ", p.table)
         + w.value.pieces + Crud.End)
  }

  method ProcessTotal(b: Builder, p: Params) returns (err: Option<Error>)
    modifies b
    ensures Crud.Wrote(old(b.out), b.out, TotalQuery(p), err)
  {
    ghost var start := b.out;
    var methodName := Crud.MethodName(Crud.MethodTotal, p.table);
    b.Write(Crud.QueryHead(methodName, "one", "SELECT count(*) as total FROM ", p.table));
    ghost var acc := Crud.QueryHead(methodName, "one", "SELECT count(*) as total FROM ", p.table);
    var lastIndex := 1;
    err, lastIndex := ProcessWhereParam(b, p, p.totalWhere, lastIndex);
    if err.Some? {
      return;
    }
    ghost var w := WherePieces(p.totalWhere, 0, p, 1).value.pieces;
    AppendAssoc(start, acc, w);
    b.Write(Crud.End);
    AppendAssoc(start, acc + w, Crud.End);
  }

  // ---------------------------------------------------------------- generateCRUD

  /** The first result, unless it failed, followed by the second. */
  function AndThen(a: Result<seq<Piece>, Error>, b: Result<seq<Piece>, Error>): Result<seq<Piece>, Error> {
    if a.Err? then a else Crud.Then(a.value, b)
  }

  /** The six queries of one table in the order generateCRUD writes them; the first error stops it. */
  ghost function TableQueries(p: Params): Result<seq<Piece>, Error> {
    Crud.Then(CreateQuery(p),
      AndThen(UpdateQuery(p), AndThen(DeleteQuery(p), AndThen(GetQuery(p), AndThen(FindQuery(p), TotalQuery(p))))))
  }

  /** Writes `q`'s query after `written`, or reports its error; `rest` is what follows it. */
  lemma Step(start: seq<Piece>, written: seq<Piece>, q: Result<seq<Piece>, Error>, rest: Result<seq<Piece>, Error>,
             out: seq<Piece>, err: Option<Error>)
    requires Crud.Wrote(start + written, out, q, err)
    ensures q.Ok? ==> out == start + (written + q.value) && Crud.Then(written, AndThen(q, rest)) == Crud.Then(written + q.value, rest)
    ensures q.Err? ==> Crud.Then(written, AndThen(q, rest)) == q && err == Some(q.error)
  {
    if q.Ok? {
      AppendAssoc(start, written, q.value);
      Crud.ThenTwice(written, q.value, rest);
    }
  }

  /** One round of generateCRUD's loop: the six process calls, the first error returned. */
  method ProcessTable(b: Builder, p: Params) returns (err: Option<Error>)
    modifies b
    ensures Crud.Wrote(old(b.out), b.out, TableQueries(p), err)
  {
    ghost var start := b.out;
    ProcessCreate(b, p);
    ghost var written := CreateQuery(p);
    ghost var rest := AndThen(DeleteQuery(p), AndThen(GetQuery(p), AndThen(FindQuery(p), TotalQuery(p))));
    err := ProcessUpdate(b, p);
    Step(start, written, UpdateQuery(p), rest, b.out, err);
    if err.Some? {
      return;
    }
    written := written + UpdateQuery(p).value;
    rest := AndThen(GetQuery(p), AndThen(FindQuery(p), TotalQuery(p)));
    err := ProcessDelete(b, p);
    Step(start, written, DeleteQuery(p), rest, b.out, err);
    if err.Some? {
      return;
    }
    written := written + DeleteQuery(p).value;
    rest := AndThen(FindQuery(p), TotalQuery(p));
    err := ProcessGet(b, p);
    Step(start, written, GetQuery(p), rest, b.out, err);
    if err.Some? {
      return;
    }
    written := written + GetQuery(p).value;
    err := ProcessFind(b, p);
    Step(start, written, FindQuery(p), TotalQuery(p), b.out, err);
    if err.Some? {
      return;
    }
    written := written + FindQuery(p).value;
    err := ProcessTotal(b, p);
    if err.None? {
      AppendAssoc(start, written, TotalQuery(p).value);
    }
  }

  /** The configuration's answers for one table. */
  datatype Settings = Settings(where: seq<string>, totalWhere: seq<string>, orderBy: Option<Order>, limit: bool)

  function TableParams(table: string, columns: seq<string>, s: Settings): Params {
    Params(table, columns, s.where, s.totalWhere, s.orderBy, s.limit)
  }

  /** The queries of the tables order[i..], in that order; the first error stops them. */
  ghost function AllQueries(order: seq<string>, i: nat, groupData: map<string, seq<string>>, settings: string -> Settings)
    : Result<seq<Piece>, Error>
    requires i <= |order|
    requires forall k :: 0 <= k < |order| ==> order[k] in groupData
    decreases |order| - i
  {
    if i == |order| then Ok([])
    else
      var t := TableQueries(TableParams(order[i], groupData[order[i]], settings(order[i])));
      AndThen(t, AllQueries(order, i + 1, groupData, settings))
  }

  lemma AllQueriesStep(order: seq<string>, i: nat, groupData: map<string, seq<string>>, settings: string -> Settings)
    requires i < |order|
    requires forall k :: 0 <= k < |order| ==> order[k] in groupData
    ensures AllQueries(order, i, groupData, settings)
         == AndThen(TableQueries(TableParams(order[i], groupData[order[i]], settings(order[i]))),
                    AllQueries(order, i + 1, groupData, settings))
  {
  }

  /**
   * generateCRUD after the metadata is read: every table of groupData once, in `order` — Go's
   * map iteration order — with the configuration's settings for it; the result is the builder's text.
   */
  method GenerateCrud(groupData: map<string, seq<string>>, order: seq<string>, settings: string -> Settings)
    returns (r: Result<seq<Piece>, Error>)
    requires forall k :: 0 <= k < |order| ==> order[k] in groupData
    requires multiset(order) == multiset(groupData.Keys)
    ensures r == AllQueries(order, 0, groupData, settings)
  {
    var b := new Builder();
    ghost var all := AllQueries(order, 0, groupData, settings);
    Crud.ThenNothing(all);
    var i := 0;
    while i < |order|
      invariant 0 <= i <= |order|
      invariant all == Crud.Then(b.out, AllQueries(order, i, groupData, settings))
    {
      var table := order[i];
      var p := TableParams(table, groupData[table], settings(table));
      AllQueriesStep(order, i, groupData, settings);
      ghost var before := b.out;
      var e := ProcessTable(b, p);
      GenerateStep(all, before, TableQueries(p), AllQueries(order, i + 1, groupData, settings), b.out, e);
      if e.Some? {
        return Err(e.value);
      }
      i := i + 1;
    }
    assert b.out + [] == b.out;
    r := Ok(b.out);
  }

  /** One round of generateCRUD's loop: an error ends the whole result, otherwise the output grows by the table's queries. */
  lemma GenerateStep(all: Result<seq<Piece>, Error>, before: seq<Piece>, q: Result<seq<Piece>, Error>,
                     rest: Result<seq<Piece>, Error>, out: seq<Piece>, err: Option<Error>)
    requires all == Crud.Then(before, AndThen(q, rest))
    requires Crud.Wrote(before, out, q, err)
    ensures err.Some? ==> all == Err(err.value)
    ensures err.None? ==> all == Crud.Then(out, rest)
  {
    if q.Ok? {
      assert [] + before == before;
      Step([], before, q, rest, out, err);
    }
  }

  // ---------------------------------------------------------------- getTableMeta

  /** One row of the column query: a table and one of its columns. */
  datatype Row = Row(table: string, column: string)

  /** The rows grouped by table, the skipped tables left out. */
  function Grouped(rows: seq<Row>): map<string, seq<string>>
    decreases |rows|
  {
    if |rows| == 0 then map[]
    else
      var g := Grouped(rows[..|rows| - 1]);
      var r := rows[|rows| - 1];
      if r.table in SkipTables then g
      else g[r.table := (if r.table in g then g[r.table] else []) + [r.column]]
  }

  /** The columns of the rows naming table t, in row order. */
  function ColumnsOf(rows: seq<Row>, t: string): seq<string>
    decreases |rows|
  {
    if |rows| == 0 then []
    else ColumnsOf(rows[..|rows| - 1], t) + (if rows[|rows| - 1].table == t then [rows[|rows| - 1].column] else [])
  }

  /** The grouping step of getTableMeta. */
  method GroupRows(items: seq<Row>) returns (groupData: map<string, seq<string>>)
    ensures groupData == Grouped(items)
  {
    groupData := map[];
    var i := 0;
    while i < |items|
      invariant 0 <= i <= |items|
      invariant groupData == Grouped(items[..i])
    {
      var item := items[i];
      assert items[..i + 1][..i] == items[..i];
      var skip := Exist(SkipTables, item.table);
      if !skip {
        if item.table !in groupData {
          groupData := groupData[item.table := []];
        }
        groupData := groupData[item.table := groupData[item.table] + [item.column]];
      }
      i := i + 1;
    }
    assert items[..i] == items;
  }
}
