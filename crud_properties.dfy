/**
 * What the CRUD queries promise sqlc: placeholders numbered $1, $2, … in writing order, predicate
 * keywords forming one WHERE … AND … chain, and the errors for a missing primary column or a
 * where-param that is not a column.
 */
module CrudProperties {
  import opened Wrappers
  import opened Strings
  import opened Sql
  import opened Crud
  import Utils
  import Config

  // ---------------------------------------------------------------- pieces

  lemma ConnectiveMarks(k: string)
    ensures Placeholders(Connective(k)) == [] && Keywords(Connective(k)) == [k]
  {
    assert Connective(k) == [Text(" ")] + [Keyword(k)] + [Text(" ")];
    MarksAppend([Text(" ")] + [Keyword(k)], [Text(" ")]);
    MarksAppend([Text(" ")], [Keyword(k)]);
    OneMarks(Text(" "));
    OneMarks(Keyword(k));
  }

  lemma ClauseMarks(param: string, item: Config.WhereParamsItem, n: nat)
    ensures Placeholders(ClausePieces(param, item, n)) == (if item.value == "" then [n] else [])
    ensures Keywords(ClausePieces(param, item, n)) == []
  {
    var c := ClausePieces(param, item, n);
    if item.value == "" {
      var t := Text(Quote(param) + " " + (if item.operator == "" then "=" else item.operator) + " ");
      assert c == [t] + [Param(n)];
      MarksAppend([t], [Param(n)]);
      OneMarks(t);
      OneMarks(Param(n));
    } else {
      PlainHasNone(c);
    }
  }

  lemma KeyPredicateMarks(lead: string, key: string, n: nat)
    ensures Placeholders(KeyPredicate(lead, key, n)) == [n]
    ensures Keywords(KeyPredicate(lead, key, n)) == ["WHERE"]
  {
    var t := Text(" " + Quote(key) + "=");
    assert KeyPredicate(lead, key, n) == [Text(lead)] + [Keyword("WHERE")] + [t] + [Param(n)];
    MarksAppend([Text(lead)] + [Keyword("WHERE")] + [t], [Param(n)]);
    MarksAppend([Text(lead)] + [Keyword("WHERE")], [t]);
    MarksAppend([Text(lead)], [Keyword("WHERE")]);
    OneMarks(Text(lead));
    OneMarks(Keyword("WHERE"));
    OneMarks(t);
    OneMarks(Param(n));
  }

  lemma HeadMarks(name: string, operation: string, verb: string, table: string, m: Config.Method)
    ensures Placeholders(QueryHead(name, operation, verb, table)) == [] && Keywords(QueryHead(name, operation, verb, table)) == []
    ensures Placeholders(End) == [] && Keywords(End) == []
    ensures Placeholders(Returning(m)) == [] && Keywords(Returning(m)) == []
    ensures Placeholders(OrderPieces(m)) == [] && Keywords(OrderPieces(m)) == []
  {
    PlainHasNone(QueryHead(name, operation, verb, table));
    PlainHasNone(End);
    PlainHasNone(Returning(m));
    PlainHasNone(OrderPieces(m));
  }

  /** The head, the ordering, RETURNING and the terminator are constant text. */
  lemma PiecesPlain(name: string, operation: string, verb: string, table: string, m: Config.Method)
    ensures Plain(QueryHead(name, operation, verb, table)) && Plain(OrderPieces(m))
    ensures Plain(Returning(m)) && Plain(End)
  {
  }

  // ---------------------------------------------------------------- processWhereParam

  /** One predicate ahead of the rest: a key that is a column prepends its connective and clause. */
  lemma WhereStep(keys: seq<string>, i: nat, params: map<string, Config.WhereParamsItem>,
                  p: Params, first: string, later: string, n: nat)
    requires i < |keys| && keys[i] in p.columns
    requires forall k :: k in keys ==> k in params
    ensures var item := params[keys[i]];
      var rest := WherePieces(keys, i + 1, params, p, first, later, if item.value == "" then n + 1 else n);
      var w := WherePieces(keys, i, params, p, first, later, n);
      && (w.Ok? <==> rest.Ok?)
      && (rest.Err? ==> w == rest)
      && (rest.Ok? ==> w.value.next == rest.value.next)
      && (rest.Ok? ==>
            w.value.pieces == Connective(if i == 0 then first else later) + ClausePieces(keys[i], item, n) + rest.value.pieces)
  {
  }

  /** A key that is a column passes on the outcome of the keys after it. */
  lemma WhereStepStatus(keys: seq<string>, i: nat, params: map<string, Config.WhereParamsItem>,
                        p: Params, first: string, later: string, n: nat)
    requires i < |keys| && keys[i] in p.columns
    requires forall k :: k in keys ==> k in params
    ensures var rest := WherePieces(keys, i + 1, params, p, first, later, if params[keys[i]].value == "" then n + 1 else n);
      var w := WherePieces(keys, i, params, p, first, later, n);
      (w.Ok? <==> rest.Ok?) && (rest.Err? ==> w == rest)
  {
  }

  /** A run of keywords is its first keyword followed by the rest of the run. */
  lemma KeywordRunStep(i: nat, m: nat, first: string, later: string)
    requires m > 0
    ensures KeywordRun(i, m, first, later) == [if i == 0 then first else later] + KeywordRun(i + 1, m - 1, first, later)
  {
  }

  /** The predicates of keys[i..] take the placeholders n, n+1, … in order, one per param without a value. */
  lemma {:induction false} WhereNumbers(keys: seq<string>, i: nat, params: map<string, Config.WhereParamsItem>,
                                        p: Params, first: string, later: string, n: nat)
    requires i <= |keys|
    requires forall k :: k in keys ==> k in params
    ensures var w := WherePieces(keys, i, params, p, first, later, n);
      w.Ok? ==> w.value.next == n + Consumed(keys, i, params) && NumberedFrom(w.value.pieces, n, w.value.next)
    decreases |keys| - i
  {
    if i < |keys| && keys[i] in p.columns {
      var item := params[keys[i]];
      var n' := if item.value == "" then n + 1 else n;
      var k := if i == 0 then first else later;
      var rest := WherePieces(keys, i + 1, params, p, first, later, n');
      WhereNumbers(keys, i + 1, params, p, first, later, n');
      WhereStep(keys, i, params, p, first, later, n);
      if rest.Ok? {
        PredicateNumbers(k, keys[i], item, n, rest.value.pieces, rest.value.next);
      }
    }
  }

  /** A predicate takes placeholder n exactly when its param has no fixed value. */
  lemma PredicateNumbers(k: string, param: string, item: Config.WhereParamsItem, n: nat, rest: seq<Piece>, hi: nat)
    requires NumberedFrom(rest, if item.value == "" then n + 1 else n, hi)
    ensures NumberedFrom(Connective(k) + ClausePieces(param, item, n) + rest, n, hi)
  {
    var n' := if item.value == "" then n + 1 else n;
    var clause := ClausePieces(param, item, n);
    ConnectiveMarks(k);
    ClauseMarks(param, item, n);
    PlaceholdersAppend(Connective(k), clause);
    assert Range(n, n') == if item.value == "" then [n] else [];
    NumberedJoin(Connective(k) + clause, rest, n, n', hi);
  }

  /** A predicate contributes its connective's keyword and nothing else. */
  lemma PredicateKeywords(k: string, param: string, item: Config.WhereParamsItem, n: nat, rest: seq<Piece>)
    ensures Keywords(Connective(k) + ClausePieces(param, item, n) + rest) == [k] + Keywords(rest)
  {
    ConnectiveMarks(k);
    ClauseMarks(param, item, n);
    KeywordsAppend(Connective(k) + ClausePieces(param, item, n), rest);
    KeywordsAppend(Connective(k), ClausePieces(param, item, n));
  }

  /** The keywords of m predicates from key i on: `first` at the very first key, `later` after it. */
  function KeywordRun(i: nat, m: nat, first: string, later: string): (r: seq<string>)
    ensures |r| == m && forall j :: 0 <= j < m ==> r[j] == if i + j == 0 then first else later
    decreases m
  {
    if m == 0 then [] else [if i == 0 then first else later] + KeywordRun(i + 1, m - 1, first, later)
  }

  /** A predicate's keyword heads the run that the predicates after it continue. */
  lemma PredicateRun(i: nat, m: nat, first: string, later: string,
                     param: string, item: Config.WhereParamsItem, n: nat, rest: seq<Piece>)
    requires m > 0 && Keywords(rest) == KeywordRun(i + 1, m - 1, first, later)
    ensures Keywords(Connective(if i == 0 then first else later) + ClausePieces(param, item, n) + rest)
         == KeywordRun(i, m, first, later)
  {
    PredicateKeywords(if i == 0 then first else later, param, item, n, rest);
    KeywordRunStep(i, m, first, later);
  }

  /** The predicates of keys[i..] carry one keyword each: `first` at the very first key, `later` after it. */
  lemma {:induction false} WhereKeywords(keys: seq<string>, i: nat, params: map<string, Config.WhereParamsItem>,
                                         p: Params, first: string, later: string, n: nat)
    requires i <= |keys|
    requires forall k :: k in keys ==> k in params
    ensures var w := WherePieces(keys, i, params, p, first, later, n);
      w.Ok? ==> Keywords(w.value.pieces) == KeywordRun(i, |keys| - i, first, later)
    decreases |keys| - i
  {
    if i < |keys| && keys[i] in p.columns {
      WhereKeywords(keys, i + 1, params, p, first, later, if params[keys[i]].value == "" then n + 1 else n);
      WhereKeywordsStep(keys, i, params, p, first, later, n);
    }
  }

  lemma WhereKeywordsStep(keys: seq<string>, i: nat, params: map<string, Config.WhereParamsItem>,
                          p: Params, first: string, later: string, n: nat)
    requires i < |keys| && keys[i] in p.columns
    requires forall k :: k in keys ==> k in params
    requires var rest := WherePieces(keys, i + 1, params, p, first, later, if params[keys[i]].value == "" then n + 1 else n);
      rest.Ok? ==> Keywords(rest.value.pieces) == KeywordRun(i + 1, |keys| - (i + 1), first, later)
    ensures var w := WherePieces(keys, i, params, p, first, later, n);
      w.Ok? ==> Keywords(w.value.pieces) == KeywordRun(i, |keys| - i, first, later)
  {
    var item := params[keys[i]];
    var rest := WherePieces(keys, i + 1, params, p, first, later, if item.value == "" then n + 1 else n);
    WhereStep(keys, i, params, p, first, later, n);
    if rest.Ok? {
      PredicateRun(i, |keys| - i, first, later, keys[i], item, n, rest.value.pieces);
    }
  }

  /** The predicates of keys[i..] fail exactly when a key is not a column, and name the first such key. */
  lemma WhereFails(keys: seq<string>, i: nat, params: map<string, Config.WhereParamsItem>,
                   p: Params, first: string, later: string, n: nat)
    requires i <= |keys|
    requires forall k :: k in keys ==> k in params
    ensures var w := WherePieces(keys, i, params, p, first, later, n);
      (w.Ok? <==> forall j :: i <= j < |keys| ==> keys[j] in p.columns)
      && (w.Err? ==> exists j :: i <= j < |keys| && keys[j] !in p.columns
                                && (forall l :: i <= l < j ==> keys[l] in p.columns)
                                && w.error == NoSuchParam(keys[j], p.table))
  {
    WhereOkIff(keys, i, params, p, first, later, n);
    WhereFirstMissing(keys, i, params, p, first, later, n);
  }

  lemma {:induction false} WhereOkIff(keys: seq<string>, i: nat, params: map<string, Config.WhereParamsItem>,
                                      p: Params, first: string, later: string, n: nat)
    requires i <= |keys|
    requires forall k :: k in keys ==> k in params
    ensures WherePieces(keys, i, params, p, first, later, n).Ok? <==> forall j :: i <= j < |keys| ==> keys[j] in p.columns
    decreases |keys| - i
  {
    if i < |keys| && keys[i] in p.columns {
      var n' := if params[keys[i]].value == "" then n + 1 else n;
      WhereOkIff(keys, i + 1, params, p, first, later, n');
      WhereStepStatus(keys, i, params, p, first, later, n);
    }
  }

  lemma {:induction false} WhereFirstMissing(keys: seq<string>, i: nat, params: map<string, Config.WhereParamsItem>,
                                             p: Params, first: string, later: string, n: nat)
    requires i <= |keys|
    requires forall k :: k in keys ==> k in params
    ensures var w := WherePieces(keys, i, params, p, first, later, n);
      w.Err? ==> exists j :: i <= j < |keys| && keys[j] !in p.columns
                             && (forall l :: i <= l < j ==> keys[l] in p.columns)
                             && w.error == NoSuchParam(keys[j], p.table)
    decreases |keys| - i
  {
    if i < |keys| && keys[i] in p.columns {
      var n' := if params[keys[i]].value == "" then n + 1 else n;
      var rest := WherePieces(keys, i + 1, params, p, first, later, n');
      WhereFirstMissing(keys, i + 1, params, p, first, later, n');
      WhereStepStatus(keys, i, params, p, first, later, n);
      if rest.Err? {
        var j :| i + 1 <= j < |keys| && keys[j] !in p.columns
                 && (forall l :: i + 1 <= l < j ==> keys[l] in p.columns)
                 && rest.error == NoSuchParam(keys[j], p.table);
        assert forall l :: i <= l < j ==> keys[l] in p.columns;
      }
    }
  }

  /** The where-params of a method succeed exactly when every configured key is a column of the table. */
  lemma WhereClausesSucceed(p: Params, methodType: string, n: nat)
    ensures WhereClauses(p, methodType, n).Ok?
        <==> forall k :: k in WhereParams(p.methodParams, methodType) ==> k in p.columns
  {
    var params := WhereParams(p.methodParams, methodType);
    var c := Connectives(p, methodType);
    SortedSetStrict(params.Keys);
    var keys := SortedSet(params.Keys);
    WhereFails(keys, 0, params, p, c.0, c.1, n);
    if forall j :: 0 <= j < |keys| ==> keys[j] in p.columns {
      forall k | k in params
        ensures k in p.columns
      {
        assert k in keys;
      }
    }
  }

  /** In a strictly ascending list, the first key that is not a column is the least such key. */
  lemma FirstMissingLeast(keys: seq<string>, cols: seq<string>, j: nat)
    requires StrictlySorted(keys) && j < |keys|
    requires forall l :: 0 <= l < j ==> keys[l] in cols
    ensures forall k2 :: k2 in keys && k2 !in cols ==> LessEq(keys[j], k2)
  {
    forall k2 | k2 in keys && k2 !in cols
      ensures LessEq(keys[j], k2)
    {
      var j2 :| 0 <= j2 < |keys| && keys[j2] == k2;
      if j2 != j {
        assert j < j2;
      }
    }
  }

  /** A failing method names the least key, in ascending order, that is not a column. */
  lemma WhereClausesFirstError(p: Params, methodType: string, n: nat)
    ensures var w := WhereClauses(p, methodType, n);
      w.Err? ==> exists k :: k in WhereParams(p.methodParams, methodType) && k !in p.columns
                           && w.error == NoSuchParam(k, p.table)
                           && forall k2 :: k2 in WhereParams(p.methodParams, methodType) && k2 !in p.columns ==> LessEq(k, k2)
  {
    var params := WhereParams(p.methodParams, methodType);
    var c := Connectives(p, methodType);
    SortedSetStrict(params.Keys);
    var keys := SortedSet(params.Keys);
    WhereFails(keys, 0, params, p, c.0, c.1, n);
    var w := WhereClauses(p, methodType, n);
    if w.Err? {
      var j :| 0 <= j < |keys| && keys[j] !in p.columns
             && (forall l :: 0 <= l < j ==> keys[l] in p.columns) && w.error == NoSuchParam(keys[j], p.table);
      FirstMissingLeast(keys, p.columns, j);
      assert keys[j] in params;
    }
  }

  /**
   * The keywords of a method's predicates: the first connective, then AND — so predicates that
   * start with WHERE form a chain, and predicates that start with AND continue one.
   */
  lemma WhereClausesMarks(p: Params, methodType: string, n: nat)
    ensures var w := WhereClauses(p, methodType, n);
      w.Ok? ==> (n <= w.value.next && Placeholders(w.value.pieces) == Range(n, w.value.next)
                 && (forall j :: 1 <= j < |Keywords(w.value.pieces)| ==> Keywords(w.value.pieces)[j] == "AND")
                 && (|Keywords(w.value.pieces)| > 0 ==> Keywords(w.value.pieces)[0] == Connectives(p, methodType).0))
  {
    var params := WhereParams(p.methodParams, methodType);
    var c := Connectives(p, methodType);
    SortedSetStrict(params.Keys);
    WhereNumbers(SortedSet(params.Keys), 0, params, p, c.0, c.1, n);
    WhereKeywords(SortedSet(params.Keys), 0, params, p, c.0, c.1, n);
  }

  /**
   * As written, find and total put WHERE before every predicate: with two where-params that are
   * both columns, the keywords are not one chain.
   */
  lemma FindWhereAsWrittenUnchained(p: Params, a: string, b: string)
    requires a != b && a in p.columns && b in p.columns
    requires p.methodParams.where.Keys == {a, b}
    ensures var w := WhereClausesAsWritten(p, MethodFind, 1);
      w.Ok? && !Chained(Keywords(w.value.pieces))
  {
    var params := WhereParams(p.methodParams, MethodFind);
    var c := ConnectivesAsWritten(p, MethodFind);
    SortedSetStrict(params.Keys);
    var keys := SortedSet(params.Keys);
    assert keys[0] in params && keys[1] in params;
    WhereFails(keys, 0, params, p, c.0, c.1, 1);
    WhereKeywords(keys, 0, params, p, c.0, c.1, 1);
    var w := WhereClausesAsWritten(p, MethodFind, 1);
    assert Keywords(w.value.pieces)[1] == "WHERE";
  }

  /** The corrected keywords of find: one chain that starts with WHERE. */
  lemma FindWhereChained(p: Params)
    ensures var w := WhereClauses(p, MethodFind, 1);
      w.Ok? ==> Chained(Keywords(w.value.pieces))
  {
    WhereClausesMarks(p, MethodFind, 1);
  }

  // ---------------------------------------------------------------- create

  lemma {:induction false} ColumnsPlain(cols: seq<string>, i: nat)
    requires i <= |cols|
    ensures Plain(ColumnPieces(cols, i))
    decreases |cols| - i
  {
    if i < |cols| {
      ColumnsPlain(cols, i + 1);
    }
  }

  /** A VALUES separator is constant text. */
  lemma SeparatorMarks(i: nat)
    ensures Placeholders(Separator(i)) == [] && Keywords(Separator(i)) == []
  {
    PlainHasNone(Separator(i));
  }

  /** A VALUES item takes placeholder n unless its column is created_at. */
  lemma ValueItemMarks(column: string, n: nat)
    ensures Placeholders(ValueItem(column, n)) == (if column == "created_at" then [] else [n])
    ensures Keywords(ValueItem(column, n)) == []
  {
    OneMarks(ValueItem(column, n)[0]);
  }

  /** One VALUES entry in front of the rest: it takes n unless its column is created_at, and adds no keyword. */
  lemma ValueEntryJoin(cols: seq<string>, i: nat, n: nat, rest: seq<Piece>)
    requires i < |cols|
    ensures var e := Separator(i) + ValueItem(cols[i], n);
      Placeholders(e + rest) == (if cols[i] == "created_at" then [] else [n]) + Placeholders(rest)
      && Keywords(e + rest) == Keywords(rest)
  {
    var sep, item := Separator(i), ValueItem(cols[i], n);
    MarksAppend(sep + item, rest);
    MarksAppend(sep, item);
    SeparatorMarks(i);
    ValueItemMarks(cols[i], n);
  }

  /** The VALUES list takes n, n+1, … for the columns other than created_at. */
  lemma {:induction false} ValueMarks(cols: seq<string>, i: nat, n: nat)
    requires i <= |cols|
    ensures Placeholders(ValuePieces(cols, i, n)) == Range(n, n + Others(cols, i, "created_at"))
    ensures Keywords(ValuePieces(cols, i, n)) == []
    decreases |cols| - i
  {
    if i < |cols| {
      var n' := if cols[i] == "created_at" then n else n + 1;
      ValueMarks(cols, i + 1, n');
      ValueEntryJoin(cols, i, n, ValuePieces(cols, i + 1, n'));
      RangeAppend(n, n', n + Others(cols, i, "created_at"));
    }
  }

  /** processCreate numbers one placeholder per inserted column other than created_at, and has no predicate. */
  lemma CreateMarks(p: Params)
    ensures var cols := Utils.Without(p.columns, p.methodParams.skipColumns);
      NumberedFrom(CreateQuery(p), 1, 1 + Others(cols, 0, "created_at"))
      && Numbered(CreateQuery(p)) && Keywords(CreateQuery(p)) == []
  {
    var cols := Utils.Without(p.columns, p.methodParams.skipColumns);
    var a := CreateHeadPieces(p);
    var tail := [Text(")")] + Returning(p.methodParams) + End;
    var v := ValuePieces(cols, 0, 1);
    var hi := 1 + Others(cols, 0, "created_at");
    CreateParts(p);
    PlainHasNone(a);
    PlainHasNone(tail);
    ValueMarks(cols, 0, 1);
    Around(a, v, tail, 1, hi);
    NumberedFromOne(a + v + tail, hi);
  }

  /** The INSERT text up to the VALUES list: query head, table and column list. */
  ghost function CreateHeadPieces(p: Params): seq<Piece> {
    var cols := Utils.Without(p.columns, p.methodParams.skipColumns);
    QueryHead(QueryName(p, MethodCreate), Operation(p.methodParams), "INSERT INTO ", p.table)
    + [Text(" (")] + ColumnPieces(cols, 0) + [Text(")\n\tVALUES (")]
  }

  /** The insert query is constant text around the VALUES list. */
  lemma CreateParts(p: Params)
    ensures var cols := Utils.Without(p.columns, p.methodParams.skipColumns);
      var tail := [Text(")")] + Returning(p.methodParams) + End;
      && CreateQuery(p) == CreateHeadPieces(p) + ValuePieces(cols, 0, 1) + tail
      && Plain(CreateHeadPieces(p)) && Plain(tail)
  {
    var cols := Utils.Without(p.columns, p.methodParams.skipColumns);
    ColumnsPlain(cols, 0);
  }

  // ---------------------------------------------------------------- update

  lemma SetItemMarks(column: string, n: nat)
    ensures Placeholders(SetItem(column, n)) == (if column == "updated_at" then [] else [n])
    ensures Keywords(SetItem(column, n)) == []
  {
    if column != "updated_at" {
      var t := Text(Quote(column) + "=");
      assert SetItem(column, n) == [t] + [Param(n)];
      MarksAppend([t], [Param(n)]);
      OneMarks(t);
      OneMarks(Param(n));
    } else {
      PlainHasNone(SetItem(column, n));
    }
  }

  /** The SET list takes n, n+1, … for the columns other than updated_at, and has no predicate. */
  lemma {:induction false} SetMarks(cols: seq<string>, i: nat, wide: bool, n: nat)
    requires i <= |cols|
    ensures SetPieces(cols, i, wide, n).next == n + Others(cols, i, "updated_at")
    ensures Placeholders(SetPieces(cols, i, wide, n).pieces) == Range(n, SetPieces(cols, i, wide, n).next)
    ensures Keywords(SetPieces(cols, i, wide, n).pieces) == []
    decreases |cols| - i
  {
    if i < |cols| {
      var n' := if cols[i] == "updated_at" then n else n + 1;
      var rest := SetPieces(cols, i + 1, wide, n');
      SetMarks(cols, i + 1, wide, n');
      SetEntryMarks(cols[i], i, wide, n, rest.pieces);
      RangeAppend(n, n', rest.next);
    }
  }

  lemma SetEntryMarks(column: string, i: nat, wide: bool, n: nat, rest: seq<Piece>)
    ensures var e := SetSeparator(i, wide) + SetItem(column, n);
      Placeholders(e + rest) == (if column == "updated_at" then [] else [n]) + Placeholders(rest)
      && Keywords(e + rest) == Keywords(rest)
  {
    SetSeparatorMarks(i, wide);
    SetItemMarks(column, n);
    PlainThenMarks(SetSeparator(i, wide), SetItem(column, n), rest, if column == "updated_at" then [] else [n]);
  }

  /** A part with no marks, then a keyword-free part with placeholders ps, then the rest. */
  lemma PlainThenMarks(a: seq<Piece>, b: seq<Piece>, rest: seq<Piece>, ps: seq<nat>)
    requires Placeholders(a) == [] && Keywords(a) == []
    requires Placeholders(b) == ps && Keywords(b) == []
    ensures Placeholders(a + b + rest) == ps + Placeholders(rest) && Keywords(a + b + rest) == Keywords(rest)
  {
    MarksAppend(a + b, rest);
    MarksAppend(a, b);
    assert Placeholders(a + b) == ps;
    assert Keywords(a + b) == [];
  }

  lemma SetSeparatorMarks(i: nat, wide: bool)
    ensures Placeholders(SetSeparator(i, wide)) == [] && Keywords(SetSeparator(i, wide)) == []
  {
    PlainHasNone(SetSeparator(i, wide));
  }

  /** Every keyword is AND. */
  predicate AllAnd(kws: seq<string>) {
    forall j :: 0 <= j < |kws| ==> kws[j] == "AND"
  }

  /**
   * The shape of the keyed queries: a part numbered from $1, the primary predicate on the next
   * number, then where-params joined by AND on the numbers after it.
   */
  lemma KeyedChain(a: seq<Piece>, kp: seq<Piece>, w: seq<Piece>, m: nat, hi: nat)
    requires NumberedFrom(a, 1, m) && Keywords(a) == []
    requires NumberedFrom(kp, m, m + 1) && Keywords(kp) == ["WHERE"]
    requires NumberedFrom(w, m + 1, hi) && AllAnd(Keywords(w))
    ensures NumberedFrom(a + kp + w, 1, hi) && 1 < hi && Chained(Keywords(a + kp + w))
  {
    assert NumberedFrom(a + kp + w, 1, hi) && Keywords(a + kp + w) == ["WHERE"] + Keywords(w) by {
      JoinParts(a, kp, 1, m, m + 1);
      JoinParts(a + kp, w, 1, m + 1, hi);
    }
    ChainedAfterWhere(Keywords(w));
  }

  /** Where-params whose first connective is AND are all joined by AND. */
  lemma WhereAllAnd(p: Params, methodType: string, n: nat)
    requires Connectives(p, methodType).0 == "AND"
    ensures var w := WhereClauses(p, methodType, n);
      w.Ok? ==> NumberedFrom(w.value.pieces, n, w.value.next) && AllAnd(Keywords(w.value.pieces))
  {
    WhereClausesMarks(p, methodType, n);
  }

  /**
   * processUpdate: SET takes $1…, the primary predicate the next number, the where-params the
   * numbers after it; the keywords are the primary's WHERE followed by ANDs.
   */
  lemma UpdateMarks(p: Params)
    ensures var q := UpdateQuery(p);
      q.Ok? ==> Numbered(q.value) && Chained(Keywords(q.value))
  {
    var key := PrimaryKey(p);
    if key.Ok? {
      var head := UpdateHead(p, key.value);
      assert p.tableParams.primaryColumn != "";
      WhereAllAnd(p, MethodUpdate, head.next);
      var w := WhereClauses(p, MethodUpdate, head.next);
      if w.Ok? {
        var a, kp, m := UpdateHeadParts(p, key.value);
        PiecesPlain("", "", "", "", p.methodParams);
        UpdateShape(UpdateQuery(p).value, a, kp, w.value.pieces, Returning(p.methodParams), End, m, w.value.next);
      }
    }
  }

  /** processUpdate's head splits into the plain SET part numbered from $1 and the primary predicate. */
  lemma UpdateHeadParts(p: Params, key: string) returns (a: seq<Piece>, kp: seq<Piece>, m: nat)
    ensures UpdateHead(p, key).pieces == a + kp && UpdateHead(p, key).next == m + 1
    ensures NumberedFrom(a, 1, m) && Keywords(a) == []
    ensures NumberedFrom(kp, m, m + 1) && Keywords(kp) == ["WHERE"]
  {
    var cols := Utils.Without(p.columns, p.methodParams.skipColumns);
    var sets := SetPieces(cols, 0, |p.columns| > 6, 1);
    var top := QueryHead(QueryName(p, MethodUpdate), Operation(p.methodParams), "UPDATE ", p.table) + [Text("\n\tSET ")];
    a := top + sets.pieces;
    m := sets.next;
    kp := KeyPredicate("\n\t", key, m);
    PiecesPlain(QueryName(p, MethodUpdate), Operation(p.methodParams), "UPDATE ", p.table, p.methodParams);
    assert Plain(top);
    PlainAt(top, 1);
    SetMarks(cols, 0, |p.columns| > 6, 1);
    JoinParts(top, sets.pieces, 1, 1, m);
    KeyPredicateMarks("\n\t", key, m);
  }

  /** A plain head with its primary predicate, AND-joined where-params, then plain tails. */
  lemma UpdateShape(q: seq<Piece>, a: seq<Piece>, kp: seq<Piece>, w: seq<Piece>, r: seq<Piece>, e: seq<Piece>, m: nat, hi: nat)
    requires q == a + kp + w + r + e
    requires NumberedFrom(a, 1, m) && Keywords(a) == []
    requires NumberedFrom(kp, m, m + 1) && Keywords(kp) == ["WHERE"]
    requires NumberedFrom(w, m + 1, hi) && AllAnd(Keywords(w))
    requires Plain(r) && Plain(e)
    ensures Numbered(q) && Chained(Keywords(q))
  {
    KeyedChain(a, kp, w, m, hi);
    PlainAt(r, hi);
    PlainAt(e, hi);
    ChainThen(q, a + kp + w, r, e, hi, hi);
  }

  // ---------------------------------------------------------------- delete and get

  /**
   * processDelete and processGet: the primary predicate takes $1 and the where-params $2…; the
   * keywords are the primary's WHERE followed by ANDs.
   */
  lemma KeyedMarks(p: Params, methodType: string, head: seq<Piece>)
    requires methodType == MethodDelete || methodType == MethodGet
    requires Plain(head)
    ensures var q := KeyedQuery(p, methodType, head);
      q.Ok? ==> (Numbered(q.value) && |Placeholders(q.value)| > 0 && Placeholders(q.value)[0] == 1
                 && Chained(Keywords(q.value)))
  {
    var key := PrimaryKey(p);
    if key.Ok? {
      assert p.tableParams.primaryColumn != "";
      WhereAllAnd(p, methodType, 2);
      var w := WhereClauses(p, methodType, 2);
      if w.Ok? {
        var kp := KeyPredicate(" ", key.value, 1);
        assert NumberedFrom(kp, 1, 2) && Keywords(kp) == ["WHERE"] by {
          KeyPredicateMarks(" ", key.value, 1);
        }
        PlainAt(head, 1);
        KeyedChain(head, kp, w.value.pieces, 1, w.value.next);
        PiecesPlain("", "", "", "", p.methodParams);
        PlainAt(End, w.value.next);
        ChainEnd(KeyedQuery(p, methodType, head).value, head + kp + w.value.pieces, End, w.value.next);
      }
    }
  }

  lemma DeleteGetMarks(p: Params)
    ensures DeleteQuery(p).Ok? ==> Numbered(DeleteQuery(p).value) && Chained(Keywords(DeleteQuery(p).value))
    ensures GetQuery(p).Ok? ==> Numbered(GetQuery(p).value) && Chained(Keywords(GetQuery(p).value))
  {
    KeyedMarks(p, MethodDelete, QueryHead(QueryName(p, MethodDelete), "exec", "DELETE FROM ", p.table));
    KeyedMarks(p, MethodGet, QueryHead(QueryName(p, MethodGet), "one", "SELECT * FROM ", p.table));
  }

  /**
   * update, delete and get need a primary column: none configured is ErrUndefinedPrimaryColumn,
   * one that is not a column of the table is reported with the table's name.
   */
  lemma PrimaryRequired(p: Params, methodType: string)
    requires methodType == MethodUpdate || methodType == MethodDelete || methodType == MethodGet
    ensures p.tableParams.primaryColumn == "" ==> MethodQuery(methodType, p) == Err(UndefinedPrimaryColumn)
    ensures p.tableParams.primaryColumn != "" && p.tableParams.primaryColumn !in p.columns
        ==> MethodQuery(methodType, p) == Err(NoPrimaryColumn(p.table, p.tableParams.primaryColumn))
  {
  }

  // ---------------------------------------------------------------- find and total

  lemma LimitMarks(limit: bool, n: nat)
    ensures Placeholders(LimitPieces(limit, n)) == if limit then [n, n + 1] else []
    ensures Keywords(LimitPieces(limit, n)) == []
  {
    if limit {
      var a, b := Text(" LIMIT "), Text(" OFFSET ");
      assert LimitPieces(limit, n) == [a] + [Param(n)] + [b] + [Param(n + 1)];
      MarksAppend([a] + [Param(n)] + [b], [Param(n + 1)]);
      MarksAppend([a] + [Param(n)], [b]);
      MarksAppend([a], [Param(n)]);
      OneMarks(a);
      OneMarks(b);
      OneMarks(Param(n));
      OneMarks(Param(n + 1));
    }
  }

  /** LIMIT and OFFSET take the two numbers after the where-params when limit is set, none otherwise. */
  lemma LimitNumbered(limit: bool, n: nat)
    ensures NumberedFrom(LimitPieces(limit, n), n, if limit then n + 2 else n)
    ensures Keywords(LimitPieces(limit, n)) == []
  {
    LimitMarks(limit, n);
    assert Range(n, if limit then n + 2 else n) == if limit then [n, n + 1] else [];
  }

  /** Where-params between two constant parts: the numbers and the keywords are the where-params'. */
  lemma Around(h: seq<Piece>, w: seq<Piece>, e: seq<Piece>, lo: nat, hi: nat)
    requires NumberedFrom(h, lo, lo) && Keywords(h) == []
    requires NumberedFrom(w, lo, hi)
    requires NumberedFrom(e, hi, hi) && Keywords(e) == []
    ensures NumberedFrom(h + w + e, lo, hi) && Keywords(h + w + e) == Keywords(w)
  {
    JoinParts(h, w, lo, lo, hi);
    JoinParts(h + w, e, lo, hi, hi);
    assert Keywords(h + w) == Keywords(w);
  }

  /** A chain numbered from $1, then more placeholders, then constant text: still numbered, same keywords. */
  lemma ChainThen(q: seq<Piece>, x: seq<Piece>, l: seq<Piece>, e: seq<Piece>, hi: nat, hi2: nat)
    requires q == x + l + e
    requires NumberedFrom(x, 1, hi) && Chained(Keywords(x))
    requires NumberedFrom(l, hi, hi2) && Keywords(l) == []
    requires NumberedFrom(e, hi2, hi2) && Keywords(e) == []
    ensures NumberedFrom(q, 1, hi2) && Numbered(q) && Chained(Keywords(q))
  {
    var kx := Keywords(x);
    assert NumberedFrom(q, 1, hi2) && Keywords(q) == kx by {
      JoinParts(x, l, 1, hi, hi2);
      JoinParts(x + l, e, 1, hi2, hi2);
      assert Keywords(x + l) == kx;
    }
    NumberedFromOne(q, hi2);
  }

  /** A chain numbered from $1, then constant text: still numbered, same keywords. */
  lemma ChainEnd(q: seq<Piece>, x: seq<Piece>, e: seq<Piece>, hi: nat)
    requires q == x + e
    requires NumberedFrom(x, 1, hi) && Chained(Keywords(x))
    requires NumberedFrom(e, hi, hi) && Keywords(e) == []
    ensures NumberedFrom(q, 1, hi) && Numbered(q) && Chained(Keywords(q))
  {
    var kx := Keywords(x);
    assert NumberedFrom(q, 1, hi) && Keywords(q) == kx by {
      JoinParts(x, e, 1, hi, hi);
    }
    NumberedFromOne(q, hi);
  }

  /** The shape of total: constant text, where-params chained from $1, constant text. */
  lemma TotalChain(q: seq<Piece>, h: seq<Piece>, w: seq<Piece>, e: seq<Piece>, hi: nat)
    requires q == h + w + e
    requires NumberedFrom(h, 1, 1) && Keywords(h) == []
    requires NumberedFrom(w, 1, hi) && Chained(Keywords(w))
    requires NumberedFrom(e, hi, hi) && Keywords(e) == []
    ensures Numbered(q) && Chained(Keywords(q))
  {
    Around(h, w, e, 1, hi);
    NumberedFromOne(q, hi);
  }

  /** Find and total start their predicates with WHERE and join the others with AND. */
  lemma WhereFromOne(p: Params, methodType: string)
    requires methodType == MethodFind || methodType == MethodTotal
    ensures var w := WhereClauses(p, methodType, 1);
      w.Ok? ==> NumberedFrom(w.value.pieces, 1, w.value.next) && Chained(Keywords(w.value.pieces))
  {
    WhereClausesMarks(p, methodType, 1);
  }

  /** The shape of find: constant text, a chain from $1, constant text, further placeholders, constant text. */
  lemma FindShape(q: seq<Piece>, h: seq<Piece>, w: seq<Piece>, o: seq<Piece>, l: seq<Piece>, e: seq<Piece>, hi: nat, hi2: nat)
    requires q == h + w + o + l + e
    requires Plain(h) && Plain(o) && Plain(e)
    requires NumberedFrom(w, 1, hi) && Chained(Keywords(w))
    requires NumberedFrom(l, hi, hi2) && Keywords(l) == []
    ensures NumberedFrom(q, 1, hi2) && Numbered(q) && Chained(Keywords(q))
  {
    assert NumberedFrom(h + w + o, 1, hi) && Keywords(h + w + o) == Keywords(w) by {
      PlainAt(h, 1);
      PlainAt(o, hi);
      Around(h, w, o, 1, hi);
    }
    PlainAt(e, hi2);
    ChainThen(q, h + w + o, l, e, hi, hi2);
  }

  /**
   * processFind: the where-params take $1…, LIMIT and OFFSET the two numbers after them; the
   * keywords form one chain.
   */
  lemma FindMarks(p: Params)
    ensures var q := FindQuery(p);
      q.Ok? ==> Numbered(q.value) && Chained(Keywords(q.value))
  {
    var w := WhereClauses(p, MethodFind, 1);
    if w.Ok? {
      var hi := w.value.next;
      WhereFromOne(p, MethodFind);
      PiecesPlain(QueryName(p, MethodFind), "many", "SELECT * FROM ", p.table, p.methodParams);
      LimitNumbered(p.methodParams.limit, hi);
      FindShape(FindQuery(p).value, QueryHead(QueryName(p, MethodFind), "many", "SELECT * FROM ", p.table),
                w.value.pieces, OrderPieces(p.methodParams), LimitPieces(p.methodParams.limit, hi), End,
                hi, if p.methodParams.limit then hi + 2 else hi);
    }
  }

  /** processTotal: the where-params take $1…; the keywords form one chain. */
  lemma TotalMarks(p: Params)
    ensures var q := TotalQuery(p);
      q.Ok? ==> Numbered(q.value) && Chained(Keywords(q.value))
  {
    var w := WhereClauses(p, MethodTotal, 1);
    if w.Ok? {
      var h := QueryHead(TotalName(p), "one", "SELECT count(*) as total FROM ", p.table);
      assert NumberedFrom(w.value.pieces, 1, w.value.next) && Chained(Keywords(w.value.pieces)) by {
        WhereFromOne(p, MethodTotal);
      }
      PiecesPlain(TotalName(p), "one", "SELECT count(*) as total FROM ", p.table, p.methodParams);
      PlainAt(h, 1);
      PlainAt(End, w.value.next);
      TotalChain(TotalQuery(p).value, h, w.value.pieces, End, w.value.next);
    }
  }

  // ---------------------------------------------------------------- process

  /** Every generated query is numbered from $1 and carries one predicate chain. */
  lemma MethodQueryMarks(methodType: string, p: Params)
    ensures var q := MethodQuery(methodType, p);
      q.Ok? ==> Numbered(q.value) && Chained(Keywords(q.value))
  {
    if methodType == MethodCreate {
      CreateMarks(p);
    } else if methodType == MethodUpdate {
      UpdateMarks(p);
    } else if methodType == MethodDelete || methodType == MethodGet {
      DeleteGetMarks(p);
    } else if methodType == MethodFind {
      FindMarks(p);
    } else if methodType == MethodTotal {
      TotalMarks(p);
    } else {
      assert MethodQuery(methodType, p) == Ok([]);
    }
  }

  /** process succeeds only when every configured table is in the database's metadata. */
  lemma {:induction false} ProcessNeedsTables(keys: seq<string>, i: nat, tables: map<string, TableParams>,
                                              meta: map<string, seq<string>>)
    requires i <= |keys|
    requires forall k :: k in keys ==> k in tables
    ensures ProcessQueries(keys, i, tables, meta).Ok? ==> forall j :: i <= j < |keys| ==> keys[j] in meta
    decreases |keys| - i
  {
    if i < |keys| && keys[i] in meta {
      ProcessNeedsTables(keys, i + 1, tables, meta);
    }
  }

  lemma AllQueriesNeedTables(tables: map<string, TableParams>, meta: map<string, seq<string>>)
    ensures AllQueries(tables, meta).Ok? ==> tables.Keys <= meta.Keys
  {
    SortedSetStrict(tables.Keys);
    var keys := SortedSet(tables.Keys);
    ProcessNeedsTables(keys, 0, tables, meta);
    if AllQueries(tables, meta).Ok? {
      forall t | t in tables
        ensures t in meta
      {
        assert t in keys;
      }
    }
  }
}
