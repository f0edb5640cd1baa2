/**
 * What the older CRUD generator's queries promise: placeholders numbered $1, $2, … in writing
 * order, the `id` predicate on the last number, one WHERE … AND … chain (for update only with
 * the corrected keyword), and failure exactly for a where-param that is not a column.
 */
module LegacyCrudProperties {
  import opened Wrappers
  import opened Sql
  import Crud
  import CrudProperties
  import opened LegacyCrud

  // ---------------------------------------------------------------- pieces

  /** The head of a query, the ordering and the terminator are constant text. */
  lemma HeadPlain(name: string, operation: string, verb: string, table: string, orderBy: Option<Order>)
    ensures Plain(Crud.QueryHead(name, operation, verb, table)) && Plain(OrderPieces(orderBy)) && Plain(Crud.End)
  {
  }

  // ---------------------------------------------------------------- processWhereParam

  lemma PredicateMarks(param: string, n: nat)
    ensures Placeholders(Predicate(param, n)) == [n] && Keywords(Predicate(param, n)) == []
  {
    assert Predicate(param, n) == [Text(param + "=")] + [Param(n)];
    MarksAppend([Text(param + "=")], [Param(n)]);
    OneMarks(Text(param + "="));
    OneMarks(Param(n));
  }

  /** One predicate per param of params[i..], taking n, n+1, … in order. */
  lemma {:induction false} WhereNumbers(params: seq<string>, i: nat, p: Params, n: nat)
    requires i <= |params|
    ensures var w := WherePieces(params, i, p, n);
      w.Ok? ==> w.value.next == n + |params| - i && NumberedFrom(w.value.pieces, n, w.value.next)
    decreases |params| - i
  {
    if i < |params| && params[i] in p.columns {
      var rest := WherePieces(params, i + 1, p, n + 1);
      WhereNumbers(params, i + 1, p, n + 1);
      if rest.Ok? {
        PredicateNumbers(if i == 0 then "WHERE" else "AND", params[i], n, rest.value.pieces, rest.value.next);
      }
    }
  }

  /** A predicate takes placeholder n, and the ones after it continue from n+1. */
  lemma PredicateNumbers(k: string, param: string, n: nat, rest: seq<Piece>, hi: nat)
    requires NumberedFrom(rest, n + 1, hi)
    ensures NumberedFrom(Crud.Connective(k) + Predicate(param, n) + rest, n, hi)
  {
    var step := Crud.Connective(k) + Predicate(param, n);
    assert NumberedFrom(step, n, n + 1) by {
      CrudProperties.ConnectiveMarks(k);
      PredicateMarks(param, n);
      PlaceholdersAppend(Crud.Connective(k), Predicate(param, n));
    }
    NumberedJoin(step, rest, n, n + 1, hi);
  }

  /** One keyword per param of params[i..]: WHERE at the very first param, AND after it. */
  lemma {:induction false} WhereKeywords(params: seq<string>, i: nat, p: Params, n: nat)
    requires i <= |params|
    ensures var w := WherePieces(params, i, p, n);
      w.Ok? ==> (|Keywords(w.value.pieces)| == |params| - i
                 && forall j :: 0 <= j < |params| - i ==> Keywords(w.value.pieces)[j] == if i + j == 0 then "WHERE" else "AND")
    decreases |params| - i
  {
    if i < |params| && params[i] in p.columns {
      var k := if i == 0 then "WHERE" else "AND";
      var rest := WherePieces(params, i + 1, p, n + 1);
      WhereKeywords(params, i + 1, p, n + 1);
      if rest.Ok? {
        var w := WherePieces(params, i, p, n);
        var kw := Keywords(w.value.pieces);
        var kr := Keywords(rest.value.pieces);
        assert kw == [k] + kr by {
          assert w.value.pieces == Crud.Connective(k) + Predicate(params[i], n) + rest.value.pieces;
          CrudProperties.ConnectiveMarks(k);
          PredicateMarks(params[i], n);
          KeywordsAppend(Crud.Connective(k) + Predicate(params[i], n), rest.value.pieces);
          KeywordsAppend(Crud.Connective(k), Predicate(params[i], n));
        }
        forall j | 0 <= j < |params| - i
          ensures kw[j] == if i + j == 0 then "WHERE" else "AND"
        {
          if j > 0 {
            assert kw[j] == kr[j - 1];
          }
        }
      }
    }
  }

  /** The predicates of params[i..] fail exactly when a param is not a column, and name the first such param. */
  lemma {:induction false} WhereFails(params: seq<string>, i: nat, p: Params, n: nat)
    requires i <= |params|
    ensures var w := WherePieces(params, i, p, n);
      (w.Ok? <==> forall j :: i <= j < |params| ==> params[j] in p.columns)
      && (w.Err? ==> exists j :: i <= j < |params| && params[j] !in p.columns
                                && (forall l :: i <= l < j ==> params[l] in p.columns)
                                && w.error == Crud.NoSuchParam(params[j], p.table))
    decreases |params| - i
  {
    if i < |params| && params[i] in p.columns {
      WhereFails(params, i + 1, p, n + 1);
    }
  }

  /** All the where-params from n: numbered n, n+1, …, one per param, their keywords one chain. */
  lemma WhereChain(params: seq<string>, p: Params, n: nat)
    ensures var w := WherePieces(params, 0, p, n);
      w.Ok? ==> (w.value.next == n + |params| && NumberedFrom(w.value.pieces, n, w.value.next)
                 && |Keywords(w.value.pieces)| == |params| && Chained(Keywords(w.value.pieces)))
  {
    WhereNumbers(params, 0, p, n);
    WhereKeywords(params, 0, p, n);
  }

  // ---------------------------------------------------------------- create

  lemma {:induction false} ColumnsPlain(cols: seq<string>, i: nat)
    requires i <= |cols|
    ensures Plain(ColumnPieces(cols, i))
    decreases |cols| - i
  {
    if i < |cols| {
      ColumnsPlain(cols, i + 1);
    }
  }

  /** Quoting keeps the name: the name is what lies between the quotes. */
  lemma QuoteInjective(a: string, b: string)
    requires Crud.Quote(a) == Crud.Quote(b)
    ensures a == b
  {
    assert a == Crud.Quote(a)[1..|Crud.Quote(a)| - 1];
    assert b == Crud.Quote(b)[1..|Crud.Quote(b)| - 1];
  }

  /** The column list names every column of cols[i..] except id and updated_at. */
  lemma {:induction false} ColumnsNamed(cols: seq<string>, i: nat)
    requires i <= |cols|
    ensures forall k :: i <= k < |cols| && cols[k] !in SkipCreateColumns ==> Text(Crud.Quote(cols[k])) in ColumnPieces(cols, i)
    decreases |cols| - i
  {
    if i < |cols| {
      ColumnsNamed(cols, i + 1);
      var sep := Comma(i > 1, i, |cols|);
      var item := if cols[i] in SkipCreateColumns then [] else [Text(Crud.Quote(cols[i]))];
      var rest := ColumnPieces(cols, i + 1);
      assert ColumnPieces(cols, i) == sep + item + rest;
      forall k | i <= k < |cols| && cols[k] !in SkipCreateColumns
        ensures Text(Crud.Quote(cols[k])) in ColumnPieces(cols, i)
      {
        if k == i {
          assert Text(Crud.Quote(cols[k])) in item;
        } else {
          assert Text(Crud.Quote(cols[k])) in rest;
        }
      }
    }
  }

  /** The column list never names id or updated_at. */
  lemma {:induction false} ColumnsSkipped(cols: seq<string>, i: nat, c: string)
    requires i <= |cols|
    requires c in SkipCreateColumns
    ensures Text(Crud.Quote(c)) !in ColumnPieces(cols, i)
    decreases |cols| - i
  {
    if i < |cols| {
      ColumnsSkipped(cols, i + 1, c);
      var sep := Comma(i > 1, i, |cols|);
      var item := if cols[i] in SkipCreateColumns then [] else [Text(Crud.Quote(cols[i]))];
      assert ColumnPieces(cols, i) == sep + item + ColumnPieces(cols, i + 1);
      assert Crud.Quote(c)[0] == '"';
      if Text(Crud.Quote(c)) in item {
        QuoteInjective(c, cols[i]);
      }
    }
  }

  /** One entry of the VALUES list: its separator and item take n exactly when the column is inserted. */
  lemma ValueEntryMarks(cols: seq<string>, i: nat, n: nat)
    requires i < |cols|
    ensures var e := Comma(n > 1, i, |cols|) + ValueItem(cols[i], n);
      Placeholders(e) == (if Inserted(cols[i]) then [n] else []) && Keywords(e) == []
  {
    var sep := Comma(n > 1, i, |cols|);
    var item := ValueItem(cols[i], n);
    MarksAppend(sep, item);
    PlainHasNone(sep);
    if item != [] {
      assert item == [item[0]];
      OneMarks(item[0]);
    }
  }

  /** The VALUES list uses one number per inserted column. */
  lemma {:induction false} ValueCount(cols: seq<string>, i: nat, n: nat)
    requires i <= |cols|
    ensures ValuePieces(cols, i, n).next == n + InsertedCount(cols, i)
    decreases |cols| - i
  {
    if i < |cols| {
      ValueCount(cols, i + 1, if Inserted(cols[i]) then n + 1 else n);
    }
  }

  /** The VALUES list takes n, n+1, … in order. */
  lemma {:induction false} ValueNumbers(cols: seq<string>, i: nat, n: nat)
    requires i <= |cols|
    ensures NumberedFrom(ValuePieces(cols, i, n).pieces, n, ValuePieces(cols, i, n).next)
    decreases |cols| - i
  {
    if i < |cols| {
      var e := Comma(n > 1, i, |cols|) + ValueItem(cols[i], n);
      var n' := if Inserted(cols[i]) then n + 1 else n;
      var rest := ValuePieces(cols, i + 1, n');
      ValueNumbers(cols, i + 1, n');
      assert NumberedFrom(e, n, n') by {
        ValueEntryMarks(cols, i, n);
      }
      NumberedJoin(e, rest.pieces, n, n', rest.next);
    }
  }

  /** The VALUES list has no predicate. */
  lemma {:induction false} ValueKeywords(cols: seq<string>, i: nat, n: nat)
    requires i <= |cols|
    ensures Keywords(ValuePieces(cols, i, n).pieces) == []
    decreases |cols| - i
  {
    if i < |cols| {
      ValueKeywords(cols, i + 1, if Inserted(cols[i]) then n + 1 else n);
      ValueKeywordsStep(cols, i, n);
    }
  }

  lemma ValueKeywordsStep(cols: seq<string>, i: nat, n: nat)
    requires i < |cols|
    requires Keywords(ValuePieces(cols, i + 1, if Inserted(cols[i]) then n + 1 else n).pieces) == []
    ensures Keywords(ValuePieces(cols, i, n).pieces) == []
  {
    var n' := if Inserted(cols[i]) then n + 1 else n;
    ValueEntryKeywords(cols, i, n);
    ValuePiecesSplit(cols, i, n);
    NoKeywordsJoin(ValuePieces(cols, i, n).pieces, Comma(n > 1, i, |cols|) + ValueItem(cols[i], n), ValuePieces(cols, i + 1, n').pieces);
  }

  lemma ValueEntryKeywords(cols: seq<string>, i: nat, n: nat)
    requires i < |cols|
    ensures Keywords(Comma(n > 1, i, |cols|) + ValueItem(cols[i], n)) == []
  {
    ValueEntryMarks(cols, i, n);
  }

  lemma ValuePiecesSplit(cols: seq<string>, i: nat, n: nat)
    requires i < |cols|
    ensures ValuePieces(cols, i, n).pieces
         == Comma(n > 1, i, |cols|) + ValueItem(cols[i], n) + ValuePieces(cols, i + 1, if Inserted(cols[i]) then n + 1 else n).pieces
  {
  }

  lemma NoKeywordsJoin(whole: seq<Piece>, a: seq<Piece>, b: seq<Piece>)
    requires whole == a + b && Keywords(a) == [] && Keywords(b) == []
    ensures Keywords(whole) == []
  {
    KeywordsAppend(a, b);
  }

  /** processCreate: one placeholder per inserted column, numbered from $1, and no predicate. */
  lemma CreateMarks(p: Params)
    ensures NumberedFrom(CreateQuery(p), 1, 1 + InsertedCount(p.columns, 0))
    ensures Numbered(CreateQuery(p)) && Keywords(CreateQuery(p)) == []
  {
    var head := Crud.QueryHead(Crud.MethodName(Crud.MethodCreate, p.table), "one", "INSERT INTO ", p.table) + [Text(" (")];
    var a := head + ColumnPieces(p.columns, 0) + [Text(")\n\tVALUES (")];
    var v := ValuePieces(p.columns, 0, 1).pieces;
    var hi := 1 + InsertedCount(p.columns, 0);
    assert CreateQuery(p) == a + v + CreateTail;
    ColumnsPlain(p.columns, 0);
    assert Plain(a);
    PlainAt(a, 1);
    PlainAt(CreateTail, hi);
    ValueCount(p.columns, 0, 1);
    ValueNumbers(p.columns, 0, 1);
    ValueKeywords(p.columns, 0, 1);
    CrudProperties.Around(a, v, CreateTail, 1, hi);
    NumberedFromOne(CreateQuery(p), hi);
  }

  // ---------------------------------------------------------------- update

  lemma SetItemMarks(column: string, n: nat)
    ensures Placeholders(SetItem(column, n)) == (if Assigned(column) then [n] else [])
    ensures Keywords(SetItem(column, n)) == []
  {
    if Assigned(column) {
      var t := Text(Crud.Quote(column) + "=");
      assert SetItem(column, n) == [t] + [Param(n)];
      MarksAppend([t], [Param(n)]);
      OneMarks(t);
      OneMarks(Param(n));
    } else {
      PlainHasNone(SetItem(column, n));
    }
  }

  /** One entry of the SET list: its separator and item take n exactly when the column is assigned. */
  lemma SetEntryMarks(cols: seq<string>, i: nat, wide: bool, n: nat)
    requires i < |cols|
    ensures var e := SetSeparator(n > 1, i, |cols|, wide, n) + SetItem(cols[i], n);
      Placeholders(e) == (if Assigned(cols[i]) then [n] else []) && Keywords(e) == []
  {
    var sep := SetSeparator(n > 1, i, |cols|, wide, n);
    MarksAppend(sep, SetItem(cols[i], n));
    PlainHasNone(sep);
    SetItemMarks(cols[i], n);
  }

  /** The SET list uses one number per assigned column. */
  lemma {:induction false} SetCount(cols: seq<string>, i: nat, wide: bool, n: nat)
    requires i <= |cols|
    ensures SetPieces(cols, i, wide, n).next == n + AssignedCount(cols, i)
    decreases |cols| - i
  {
    if i < |cols| {
      SetCount(cols, i + 1, wide, if Assigned(cols[i]) then n + 1 else n);
    }
  }

  /** One SET entry in front of the rest: it takes n when its column is assigned, and adds no keyword. */
  lemma SetEntryJoin(cols: seq<string>, i: nat, wide: bool, n: nat, rest: seq<Piece>, hi: nat)
    requires i < |cols|
    ensures var e := SetSeparator(n > 1, i, |cols|, wide, n) + SetItem(cols[i], n);
      Keywords(e + rest) == Keywords(rest)
      && (NumberedFrom(rest, if Assigned(cols[i]) then n + 1 else n, hi) ==> NumberedFrom(e + rest, n, hi))
  {
    var e := SetSeparator(n > 1, i, |cols|, wide, n) + SetItem(cols[i], n);
    var n' := if Assigned(cols[i]) then n + 1 else n;
    SetEntryMarks(cols, i, wide, n);
    KeywordsAppend(e, rest);
    if NumberedFrom(rest, n', hi) {
      NumberedJoin(e, rest, n, n', hi);
    }
  }

  /** The SET list takes n, n+1, … in order. */
  lemma {:induction false} SetNumbers(cols: seq<string>, i: nat, wide: bool, n: nat)
    requires i <= |cols|
    ensures NumberedFrom(SetPieces(cols, i, wide, n).pieces, n, SetPieces(cols, i, wide, n).next)
    decreases |cols| - i
  {
    if i < |cols| {
      var rest := SetPieces(cols, i + 1, wide, if Assigned(cols[i]) then n + 1 else n);
      SetNumbers(cols, i + 1, wide, if Assigned(cols[i]) then n + 1 else n);
      SetEntryJoin(cols, i, wide, n, rest.pieces, rest.next);
    }
  }

  /** The SET list has no predicate. */
  lemma {:induction false} SetKeywords(cols: seq<string>, i: nat, wide: bool, n: nat)
    requires i <= |cols|
    ensures Keywords(SetPieces(cols, i, wide, n).pieces) == []
    decreases |cols| - i
  {
    if i < |cols| {
      var rest := SetPieces(cols, i + 1, wide, if Assigned(cols[i]) then n + 1 else n);
      SetKeywords(cols, i + 1, wide, if Assigned(cols[i]) then n + 1 else n);
      SetEntryJoin(cols, i, wide, n, rest.pieces, rest.next);
    }
  }

  /** The head of update: the SET list's placeholders from $1, no predicate. */
  lemma UpdateHeadMarks(p: Params)
    ensures UpdateHead(p).next == 1 + AssignedCount(p.columns, 0)
    ensures NumberedFrom(UpdateHead(p).pieces, 1, UpdateHead(p).next) && Keywords(UpdateHead(p).pieces) == []
  {
    var sets := SetPieces(p.columns, 0, |p.columns| > 6, 1);
    var top := Crud.QueryHead(Crud.MethodName(Crud.MethodUpdate, p.table), "one", "UPDATE ", p.table) + [Text("\n\tSET ")];
    SetCount(p.columns, 0, |p.columns| > 6, 1);
    SetNumbers(p.columns, 0, |p.columns| > 6, 1);
    SetKeywords(p.columns, 0, |p.columns| > 6, 1);
    PlainAt(top, 1);
    PlainAt([Text("\n\t")], sets.next);
    CrudProperties.Around(top, sets.pieces, [Text("\n\t")], 1, sets.next);
  }

  lemma IdMarks(lead: string, keyword: string, n: nat)
    ensures Placeholders(IdPredicate(lead, keyword, n)) == [n] && Keywords(IdPredicate(lead, keyword, n)) == [keyword]
  {
    assert IdPredicate(lead, keyword, n) == [Text(lead)] + [Keyword(keyword)] + [Text(" id=")] + [Param(n)];
    MarksAppend([Text(lead)] + [Keyword(keyword)] + [Text(" id=")], [Param(n)]);
    MarksAppend([Text(lead)] + [Keyword(keyword)], [Text(" id=")]);
    MarksAppend([Text(lead)], [Keyword(keyword)]);
    OneMarks(Text(lead));
    OneMarks(Keyword(keyword));
    OneMarks(Text(" id="));
    OneMarks(Param(n));
  }

  /** A chain followed by WHERE when it is empty, and by AND otherwise, is still a chain. */
  lemma ChainedThenId(kx: seq<string>, k: string)
    requires Chained(kx)
    requires k == if kx == [] then "WHERE" else "AND"
    ensures Chained(kx + [k])
  {
    if kx != [] {
      assert (kx + [k])[0] == kx[0];
    }
  }

  /**
   * The shape of the id queries: a chain numbered from $1, the id predicate on the next number —
   * with WHERE when the chain is empty and AND after it — then constant text.
   */
  lemma IdAfterChain(q: seq<Piece>, x: seq<Piece>, id: seq<Piece>, e: seq<Piece>, hi: nat, k: string)
    requires q == x + id + e
    requires NumberedFrom(x, 1, hi) && Chained(Keywords(x))
    requires NumberedFrom(id, hi, hi + 1) && Keywords(id) == [k]
    requires k == if Keywords(x) == [] then "WHERE" else "AND"
    requires Plain(e)
    ensures NumberedFrom(q, 1, hi + 1) && Numbered(q) && Chained(Keywords(q))
  {
    var kx := Keywords(x);
    assert NumberedFrom(q, 1, hi + 1) && Keywords(q) == kx + [k] by {
      PlainAt(e, hi + 1);
      JoinParts(x, id, 1, hi, hi + 1);
      JoinParts(x + id, e, 1, hi + 1, hi + 1);
    }
    NumberedFromOne(q, hi + 1);
    ChainedThenId(kx, k);
  }

  /**
   * The id queries in full: constant-free text numbered from $1 up to m, the where-params chained
   * from m, the id predicate on the next number, then constant text.
   */
  lemma KeyedShape(q: seq<Piece>, a: seq<Piece>, w: seq<Piece>, id: seq<Piece>, e: seq<Piece>, m: nat, hi: nat, k: string)
    requires q == a + w + id + e
    requires NumberedFrom(a, 1, m) && Keywords(a) == []
    requires NumberedFrom(w, m, hi) && Chained(Keywords(w))
    requires NumberedFrom(id, hi, hi + 1) && Keywords(id) == [k]
    requires k == if Keywords(w) == [] then "WHERE" else "AND"
    requires Plain(e)
    ensures NumberedFrom(q, 1, hi + 1) && Numbered(q) && Chained(Keywords(q))
  {
    assert NumberedFrom(a + w, 1, hi) && Keywords(a + w) == Keywords(w) by {
      JoinParts(a, w, 1, m, hi);
    }
    IdAfterChain(q, a + w, id, e, hi, k);
  }

  /**
   * The update query around its where-params: a head numbered from $1 without a predicate,
   * where-params chained from there, then the corrected id predicate and the tail.
   */
  lemma UpdateShape(q: seq<Piece>, head: seq<Piece>, hn: nat, w: seq<Piece>, hi: nat)
    requires q == head + w + UpdateId(hn, hi) + UpdateTail
    requires NumberedFrom(head, 1, hn) && Keywords(head) == []
    requires NumberedFrom(w, hn, hi) && Chained(Keywords(w)) && (hi == hn <==> Keywords(w) == [])
    ensures NumberedFrom(q, 1, hi + 1) && Numbered(q) && Chained(Keywords(q))
  {
    var k := if hi == hn then "WHERE" else "AND";
    IdMarks(if hi == hn then "" else " ", k, hi);
    KeyedShape(q, head, w, UpdateId(hn, hi), UpdateTail, hn, hi, k);
  }

  /**
   * processUpdate, corrected: SET takes $1…, the where-params the numbers after it, and id the
   * last number; the keywords form one chain.
   */
  lemma UpdateMarks(p: Params)
    ensures var q := UpdateQuery(p);
      q.Ok? ==> (NumberedFrom(q.value, 1, 2 + AssignedCount(p.columns, 0) + |p.where|)
                 && Numbered(q.value) && Chained(Keywords(q.value)))
  {
    var head := UpdateHead(p);
    var w := WherePieces(p.where, 0, p, head.next);
    if w.Ok? {
      UpdateHeadMarks(p);
      WhereChain(p.where, p, head.next);
      UpdateShape(UpdateQuery(p).value, head.pieces, head.next, w.value.pieces, w.value.next);
    }
  }

  /**
   * As written, update with no where-param and at least one assigned column puts AND before the
   * id predicate with no WHERE before it.
   */
  lemma UpdateAsWrittenUnchained(p: Params)
    requires p.where == [] && AssignedCount(p.columns, 0) > 0
    ensures UpdateQueryAsWritten(p).Ok?
    ensures Keywords(UpdateQueryAsWritten(p).value) == ["AND"] && !Chained(Keywords(UpdateQueryAsWritten(p).value))
  {
    var head := UpdateHead(p);
    UpdateHeadMarks(p);
    assert WherePieces(p.where, 0, p, head.next) == Ok(Crud.Written([], head.next));
    var id := IdPredicate(" ", "AND", head.next);
    assert UpdateQueryAsWritten(p).value == head.pieces + [] + id + UpdateTail;
    IdMarks(" ", "AND", head.next);
    PlainHasNone(UpdateTail);
    KeywordsAppend(head.pieces + [] + id, UpdateTail);
    KeywordsAppend(head.pieces + [], id);
    assert head.pieces + [] == head.pieces;
  }

  /** The correction changes nothing when a where-param is written or no column is assigned. */
  lemma UpdateAgrees(p: Params)
    requires p.where != [] || AssignedCount(p.columns, 0) == 0
    ensures UpdateQueryAsWritten(p) == UpdateQuery(p)
  {
    var head := UpdateHead(p);
    UpdateHeadMarks(p);
    WhereChain(p.where, p, head.next);
  }

  // ---------------------------------------------------------------- delete and get

  /**
   * processDelete and processGet: the where-params take $1…, id the last number; the keywords
   * form one chain.
   */
  lemma KeyedMarks(p: Params, head: seq<Piece>)
    requires Plain(head)
    ensures var q := KeyedQuery(p, head);
      q.Ok? ==> NumberedFrom(q.value, 1, |p.where| + 2) && Numbered(q.value) && Chained(Keywords(q.value))
  {
    var w := WherePieces(p.where, 0, p, 1);
    if w.Ok? {
      var hi := w.value.next;
      WhereChain(p.where, p, 1);
      var k := if hi == 1 then "WHERE" else "AND";
      IdMarks(" ", k, hi);
      PlainAt(head, 1);
      HeadPlain("", "", "", "", None);
      KeyedShape(KeyedQuery(p, head).value, head, w.value.pieces, KeyId(hi), Crud.End, 1, hi, k);
    }
  }

  lemma DeleteGetMarks(p: Params)
    ensures DeleteQuery(p).Ok? ==> Numbered(DeleteQuery(p).value) && Chained(Keywords(DeleteQuery(p).value))
    ensures GetQuery(p).Ok? ==> Numbered(GetQuery(p).value) && Chained(Keywords(GetQuery(p).value))
  {
    KeyedMarks(p, Crud.QueryHead(Crud.MethodName(Crud.MethodDelete, p.table), "exec", "DELETE FROM ", p.table));
    KeyedMarks(p, Crud.QueryHead(Crud.MethodName(Crud.MethodGet, p.table), "one", "SELECT * FROM ", p.table));
  }

  // ---------------------------------------------------------------- find and total

  /** processFind: the where-params take $1…, LIMIT and OFFSET the two after them; one chain. */
  lemma FindMarks(p: Params)
    ensures var q := FindQuery(p);
      q.Ok? ==> (NumberedFrom(q.value, 1, 1 + |p.where| + (if p.limit then 2 else 0))
                 && Numbered(q.value) && Chained(Keywords(q.value)))
  {
    var w := WherePieces(p.where, 0, p, 1);
    if w.Ok? {
      WhereChain(p.where, p, 1);
      var hi := w.value.next;
      var hi2 := if p.limit then hi + 2 else hi;
      var l := Crud.LimitPieces(p.limit, hi);
      CrudProperties.LimitNumbered(p.limit, hi);
      HeadPlain(Crud.MethodName(Crud.MethodFind, p.table), "many", "SELECT * FROM ", p.table, p.orderBy);
      CrudProperties.FindShape(FindQuery(p).value, Crud.QueryHead(Crud.MethodName(Crud.MethodFind, p.table), "many", "SELECT * FROM ", p.table),
                w.value.pieces, OrderPieces(p.orderBy), l, Crud.End, hi, hi2);
    }
  }

  /** processTotal: total's own where-params take $1…; one chain. */
  lemma TotalMarks(p: Params)
    ensures var q := TotalQuery(p);
      q.Ok? ==> NumberedFrom(q.value, 1, 1 + |p.totalWhere|) && Numbered(q.value) && Chained(Keywords(q.value))
  {
    var w := WherePieces(p.totalWhere, 0, p, 1);
    if w.Ok? {
      var h := Crud.QueryHead(Crud.MethodName(Crud.MethodTotal, p.table), "one", "SELECT count(*) as total FROM ", p.table);
      WhereChain(p.totalWhere, p, 1);
      PlainAt(h, 1);
      PlainAt(Crud.End, w.value.next);
      CrudProperties.TotalChain(TotalQuery(p).value, h, w.value.pieces, Crud.End, w.value.next);
      CrudProperties.Around(h, w.value.pieces, Crud.End, 1, w.value.next);
    }
  }

  // ---------------------------------------------------------------- generateCRUD

  /** Whether every param names a column of the table. */
  predicate AllColumns(params: seq<string>, columns: seq<string>) {
    forall j :: 0 <= j < |params| ==> params[j] in columns
  }

  /** The settings of a table name only its columns as where-params, for find and for total. */
  predicate SettingsFit(s: Settings, columns: seq<string>) {
    AllColumns(s.where, columns) && AllColumns(s.totalWhere, columns)
  }

  /** A table's six queries are written exactly when all its where-params and total's are columns. */
  lemma TableQueriesSucceed(p: Params)
    ensures TableQueries(p).Ok? <==> AllColumns(p.where, p.columns) && AllColumns(p.totalWhere, p.columns)
  {
    WhereFails(p.where, 0, p, 1);
    WhereFails(p.where, 0, p, UpdateHead(p).next);
    WhereFails(p.totalWhere, 0, p, 1);
  }

  lemma AndThenOk(a: Result<seq<Piece>, Error>, b: Result<seq<Piece>, Error>)
    ensures AndThen(a, b).Ok? <==> a.Ok? && b.Ok?
  {
  }

  /** The settings of every table of order[i..] fit its columns. */
  predicate AllFit(order: seq<string>, i: nat, groupData: map<string, seq<string>>, settings: string -> Settings)
    requires i <= |order|
    requires forall k :: 0 <= k < |order| ==> order[k] in groupData
    decreases |order| - i
  {
    i == |order| || (SettingsFit(settings(order[i]), groupData[order[i]]) && AllFit(order, i + 1, groupData, settings))
  }

  lemma {:induction false} AllFitEach(order: seq<string>, i: nat, groupData: map<string, seq<string>>, settings: string -> Settings)
    requires i <= |order|
    requires forall k :: 0 <= k < |order| ==> order[k] in groupData
    ensures AllFit(order, i, groupData, settings)
        <==> forall k :: i <= k < |order| ==> SettingsFit(settings(order[k]), groupData[order[k]])
    decreases |order| - i
  {
    if i < |order| {
      AllFitEach(order, i + 1, groupData, settings);
    }
  }

  lemma {:induction false} AllQueriesFit(order: seq<string>, i: nat, groupData: map<string, seq<string>>,
                                         settings: string -> Settings)
    requires i <= |order|
    requires forall k :: 0 <= k < |order| ==> order[k] in groupData
    ensures AllQueries(order, i, groupData, settings).Ok? <==> AllFit(order, i, groupData, settings)
    decreases |order| - i
  {
    if i < |order| {
      var p := TableParams(order[i], groupData[order[i]], settings(order[i]));
      TableQueriesSucceed(p);
      AllQueriesFit(order, i + 1, groupData, settings);
      AndThenOk(TableQueries(p), AllQueries(order, i + 1, groupData, settings));
    }
  }

  /** generateCRUD succeeds exactly when, for every table, the configured where-params are columns. */
  lemma AllQueriesSucceed(order: seq<string>, groupData: map<string, seq<string>>, settings: string -> Settings)
    requires forall k :: 0 <= k < |order| ==> order[k] in groupData
    ensures AllQueries(order, 0, groupData, settings).Ok?
        <==> forall k :: 0 <= k < |order| ==> SettingsFit(settings(order[k]), groupData[order[k]])
  {
    AllQueriesFit(order, 0, groupData, settings);
    AllFitEach(order, 0, groupData, settings);
  }

  // ---------------------------------------------------------------- getTableMeta

  /** The columns of table t are exactly the rows naming t. */
  lemma {:induction false} ColumnsOfRows(rows: seq<Row>, t: string)
    ensures forall c :: c in ColumnsOf(rows, t) <==> Row(t, c) in rows
    decreases |rows|
  {
    if |rows| > 0 {
      var init := rows[..|rows| - 1];
      ColumnsOfRows(init, t);
      assert rows == init + [rows[|rows| - 1]];
    }
  }

  /**
   * The grouping: a table has an entry exactly when it is not skipped and some row names it; the
   * entry is the table's columns in row order.
   */
  lemma {:induction false} GroupedColumns(rows: seq<Row>)
    ensures forall t :: t in Grouped(rows) <==> t !in SkipTables && ColumnsOf(rows, t) != []
    ensures forall t :: t in Grouped(rows) ==> Grouped(rows)[t] == ColumnsOf(rows, t)
    decreases |rows|
  {
    if |rows| > 0 {
      var init := rows[..|rows| - 1];
      GroupedColumns(init);
    }
  }
}
