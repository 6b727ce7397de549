// Listing stored records: the query the Postgres adapter runs, and its result page by page.
module RecordListing {
  import opened Options
  import opened TagQuery
  import opened SqlCondition
  import opened TagQuerySql
  import opened TagQueryAgreement
  import opened Pagination
  import opened Sorting

  // ---- ORDER BY createdAt DESC NULLS LAST, id ASC ----

  // The database's ordering of texts is a parameter: any strict total order.
  type TextOrder = (string, string) -> bool

  ghost predicate StrictTotal(less: TextOrder) {
    StrictOrder(less) && forall a, b :: a == b || less(a, b) || less(b, a)
  }

  predicate Before(a: Row, b: Row, less: TextOrder) {
    match (a.stored.createdAt, b.stored.createdAt)
    case (Some(x), Some(y)) => less(y, x) || (x == y && less(a.id, b.id))
    case (Some(_), None) => true
    case (None, Some(_)) => false
    case (None, None) => less(a.id, b.id)
  }

  function RowOrder(less: TextOrder): (Row, Row) -> bool {
    (a, b) => Before(a, b, less)
  }

  lemma RowOrderIsStrict(less: TextOrder)
    requires StrictTotal(less)
    ensures StrictOrder(RowOrder(less))
    ensures forall a: Row, b: Row :: a.id != b.id ==> RowOrder(less)(a, b) || RowOrder(less)(b, a)
  {
  }

  function OrderBy(rows: seq<Row>, less: TextOrder): seq<Row> {
    Sort(rows, RowOrder(less))
  }

  predicate DistinctIds(rows: seq<Row>) {
    forall i, j | 0 <= i < j < |rows| :: rows[i].id != rows[j].id
  }

  lemma OrderByProperties(rows: seq<Row>, less: TextOrder)
    requires StrictTotal(less) && DistinctIds(rows)
    ensures Sorted(OrderBy(rows, less), RowOrder(less))
    ensures multiset(OrderBy(rows, less)) == multiset(rows)
  {
    RowOrderIsStrict(less);
    hide RowOrder, StrictTotal;
    SortProperties(rows, RowOrder(less));
  }

  // ---- Rows ----

  // The table's primary key is (type, id), and `save` writes the record's own id to both places.
  predicate WellFormed(table: seq<Row>) {
    && (forall i, j | 0 <= i < j < |table| :: table[i].typ != table[j].typ || table[i].id != table[j].id)
    && (forall i | 0 <= i < |table| :: table[i].id == table[i].stored.id)
  }

  // The rows on which a condition is True, in table order.
  function Filter(table: seq<Row>, text: seq<Token>, params: seq<Param>): seq<Row> {
    if table == [] then []
    else (if EvalText(text, table[0], params) == True then [table[0]] else []) + Filter(table[1..], text, params)
  }

  // The rows a listing is about.
  predicate InScope(row: Row, typ: string, walletId: string, q: Query) {
    row.typ == typ && row.walletId == walletId && Selects(q, row.stored)
  }

  function Scope(table: seq<Row>, typ: string, walletId: string, q: Query): seq<Row> {
    if table == [] then []
    else (if InScope(table[0], typ, walletId, q) then [table[0]] else []) + Scope(table[1..], typ, walletId, q)
  }

  // `type = $1 AND wallet_id = $2 AND (clause)`
  function Where(clause: seq<Token>): seq<Token> {
    [Lit(ColumnEq(TypeColumn, 1)), KwAnd, Lit(ColumnEq(WalletColumn, 2)), KwAnd, Open] + clause + [Close]
  }

  lemma WhereMeaning(q: Query, row: Row, typ: string, walletId: string, after: seq<Param>)
    requires row.id == row.stored.id
    ensures EvalText(Where(PrintDisj(Clause(q, 3))), row, [PText(typ), PText(walletId)] + Conditions(q, 3).params
        + after)
         == ToTri(InScope(row, typ, walletId, q))
  {
    hide Clause, Conditions;
    var d := Clause(q, 3);
    var params := [PText(typ), PText(walletId)] + Conditions(q, 3).params + after;
    var c3 := One(Group(d));
    var c2 := AndThen(Leaf(ColumnEq(WalletColumn, 2)), c3);
    var c1 := AndThen(Leaf(ColumnEq(TypeColumn, 1)), c2);
    assert PrintConj(c3) == [Open] + PrintDisj(d) + [Close];
    assert PrintConj(c2) == [Lit(ColumnEq(WalletColumn, 2)), KwAnd] + PrintConj(c3);
    assert PrintConj(c1) == [Lit(ColumnEq(TypeColumn, 1)), KwAnd] + PrintConj(c2);
    assert PrintDisj(Only(c1)) == Where(PrintDisj(d));
    ParsePrint(Only(c1));
    TranslationCorrect(q, 3, row, [PText(typ), PText(walletId)], after);
    ParsePrint(d);
    assert params[0] == PText(typ) && params[1] == PText(walletId);
    assert EvalConj(c3, row, params) == EvalDisj(d, row, params);
    assert EvalConj(c2, row, params)
        == And3(EvalPrim(Leaf(ColumnEq(WalletColumn, 2)), row, params), EvalConj(c3, row, params));
    assert EvalDisj(Only(c1), row, params)
        == And3(EvalPrim(Leaf(ColumnEq(TypeColumn, 1)), row, params), EvalConj(c2, row, params));
  }

  lemma {:induction false} FilterIsScope(table: seq<Row>, q: Query, typ: string, walletId: string, after: seq<Param>)
    requires forall i | 0 <= i < |table| :: table[i].id == table[i].stored.id
    ensures Filter(table, Where(PrintDisj(Clause(q, 3))), [PText(typ), PText(walletId)] + Conditions(q, 3).params
        + after)
         == Scope(table, typ, walletId, q)
  {
    hide EvalText, Clause, Conditions, Where;
    if table != [] {
      WhereMeaning(q, table[0], typ, walletId, after);
      FilterIsScope(table[1..], q, typ, walletId, after);
    }
  }

  // LIMIT $limit OFFSET $offset
  datatype LimitClause = NoLimit | LimitOffset(limit: nat, offset: nat)

  function ApplyLimit(rows: seq<Row>, clause: LimitClause, params: seq<Param>): seq<Row> {
    match clause
    case NoLimit => rows
    case LimitOffset(l, o) =>
      match (ParamAt(params, l), ParamAt(params, o))
      case (Some(PInt(limit)), Some(PInt(offset))) => if limit >= 0 && offset >= 0
          then Slice(rows, offset, limit) else []
      case _ => []
  }

  // SELECT data FROM records WHERE .. ORDER BY .. LIMIT ..
  function SelectRows(table: seq<Row>, text: seq<Token>, limit: LimitClause, params: seq<Param>,
      less: TextOrder): seq<Row> {
    ApplyLimit(OrderBy(Filter(table, text, params), less), limit, params)
  }

  // selectStoredByTagQuery: the count and the page are those of the rows the query selects.
  method SelectStoredByTagQuery(table: seq<Row>, typ: string, walletId: string, query: Query,
                                pagination: Option<PageOptions>, less: TextOrder)
    returns (items: seq<Row>, total: nat)
    requires forall i | 0 <= i < |table| :: table[i].id == table[i].stored.id
    requires pagination.Some? ==> Normalised(pagination.value)
    ensures total == |Scope(table, typ, walletId, query)|
    ensures var all := OrderBy(Scope(table, typ, walletId, query), less);
      items == if pagination.Some? then Page(all, pagination.value.page, pagination.value.limit) else all
  {
    hide Filter, Scope, OrderBy, Clause, Conditions, Where;
    var clause, clauseParams := BuildTagQuerySql(query, 3);
    var text := Where(clause);
    var baseParams := [PText(typ), PText(walletId)] + clauseParams;
    FilterIsScope(table, query, typ, walletId, []);
    assert baseParams + [] == baseParams;
    total := |Filter(table, text, baseParams)|;

    var selectParams := baseParams;
    var limitClause := NoLimit;
    if pagination.Some? {
      var limitIdx, offsetIdx := |baseParams| + 1, |baseParams| + 2;
      var offset := (pagination.value.page - 1) * pagination.value.limit;
      OffsetNonNegative(pagination.value.page, pagination.value.limit);
      limitClause := LimitOffset(limitIdx, offsetIdx);
      selectParams := baseParams + [PInt(pagination.value.limit), PInt(offset)];
      FilterIsScope(table, query, typ, walletId, [PInt(pagination.value.limit), PInt(offset)]);
      assert ParamAt(selectParams, limitIdx) == Some(PInt(pagination.value.limit));
      assert ParamAt(selectParams, offsetIdx) == Some(PInt(offset));
    }
    items := SelectRows(table, text, limitClause, selectParams, less);
  }

  // ---- Listing page by page ----

  lemma {:induction false} ScopeMembers(table: seq<Row>, typ: string, walletId: string, q: Query)
    ensures forall row :: row in Scope(table, typ, walletId, q) <==> row in table && InScope(row, typ, walletId, q)
  {
    hide InScope;
    if table != [] {
      ScopeMembers(table[1..], typ, walletId, q);
      assert table == [table[0]] + table[1..];
    }
  }

  lemma {:induction false} ScopeDistinct(table: seq<Row>, typ: string, walletId: string, q: Query)
    requires WellFormed(table)
    ensures DistinctIds(Scope(table, typ, walletId, q))
  {
    hide Selects;
    if table != [] {
      var rest := Scope(table[1..], typ, walletId, q);
      ScopeDistinct(table[1..], typ, walletId, q);
      ScopeMembers(table[1..], typ, walletId, q);
      forall i | 0 <= i < |rest| && table[0].typ == typ ensures rest[i].id != table[0].id {
        assert rest[i] in rest;
        var k :| 0 <= k < |table[1..]| && table[1..][k] == rest[i];
        assert table[k + 1] == rest[i];
      }
    }
  }

  // Newest first: a row without a time of creation has only such rows after it, no row is older than one
  // after it, and rows created at one time, or at none, stand in the order of their ids.
  ghost predicate NewestFirst(rows: seq<Row>, less: TextOrder) {
    forall i, j | 0 <= i < j < |rows| ::
      var a, b := rows[i].stored.createdAt, rows[j].stored.createdAt;
      && (a == None ==> b == None)
      && (a != None && b != None ==> !less(a.value, b.value))
      && (a == b ==> less(rows[i].id, rows[j].id))
  }

  lemma SortedNewestFirst(rows: seq<Row>, less: TextOrder)
    requires StrictTotal(less) && Sorted(rows, RowOrder(less))
    ensures NewestFirst(rows, less)
  {
    assert forall i, j | 0 <= i < j < |rows| :: RowOrder(less)(rows[i], rows[j]);
  }

  // The ordered result: newest first, and made of exactly the rows in scope.
  lemma ListingProperties(table: seq<Row>, typ: string, walletId: string, q: Query, less: TextOrder)
    requires StrictTotal(less) && WellFormed(table)
    ensures var all := OrderBy(Scope(table, typ, walletId, q), less);
      && |all| == |Scope(table, typ, walletId, q)|
      && Sorted(all, RowOrder(less)) && NewestFirst(all, less)
      && (forall row :: row in all <==> row in table && InScope(row, typ, walletId, q))
  {
    hide Scope, OrderBy, InScope, Sorted, WellFormed, RowOrder, StrictTotal, DistinctIds, NewestFirst;
    var scope := Scope(table, typ, walletId, q);
    ScopeMembers(table, typ, walletId, q);
    ScopeDistinct(table, typ, walletId, q);
    OrderByProperties(scope, less);
    var all := OrderBy(scope, less);
    SortedNewestFirst(all, less);
    assert |all| == |multiset(all)| == |scope|;
    forall row ensures row in all <==> row in scope {
      assert row in all <==> row in multiset(all);
    }
  }

  ghost predicate SameRows(a: seq<Row>, b: seq<Row>) { forall row :: row in a <==> row in b }

  // The ordered result does not depend on the physical order of the table.
  lemma OrderIndependent(table: seq<Row>, table': seq<Row>, typ: string, walletId: string, q: Query, less: TextOrder)
    requires StrictTotal(less) && WellFormed(table) && WellFormed(table')
    requires SameRows(table, table')
    ensures OrderBy(Scope(table, typ, walletId, q), less) == OrderBy(Scope(table', typ, walletId, q), less)
  {
    RowOrderIsStrict(less);
    hide Scope, OrderBy, InScope, Sorted, NewestFirst, WellFormed, RowOrder, StrictTotal, StrictOrder;
    ListingProperties(table, typ, walletId, q, less);
    ListingProperties(table', typ, walletId, q, less);
    SortedUnique(OrderBy(Scope(table, typ, walletId, q), less), OrderBy(Scope(table', typ, walletId, q), less),
      RowOrder(less));
  }

  // Page k read from tables[k - 1], for each k in turn.
  function PagesRead(tables: seq<seq<Row>>, typ: string, walletId: string, q: Query, limit: int,
      less: TextOrder): seq<Row>
    requires limit >= 1
  {
    if tables == [] then []
    else
      var n := |tables|;
      PagesRead(tables[..n - 1], typ, walletId, q, limit, less)
      + Page(OrderBy(Scope(tables[n - 1], typ, walletId, q), less), n, limit)
  }

  lemma {:induction false} PagesReadArePages(tables: seq<seq<Row>>, table: seq<Row>, typ: string, walletId: string,
                                             q: Query, limit: int, less: TextOrder)
    requires limit >= 1 && StrictTotal(less) && WellFormed(table)
    requires forall i | 0 <= i < |tables| :: WellFormed(tables[i]) && SameRows(tables[i], table)
    ensures PagesRead(tables, typ, walletId, q, limit, less)
         == Pages(OrderBy(Scope(table, typ, walletId, q), less), |tables|, limit)
  {
    hide Scope, OrderBy, Page, WellFormed;
    if tables != [] {
      var n := |tables|;
      PagesReadArePages(tables[..n - 1], table, typ, walletId, q, limit, less);
      OrderIndependent(tables[n - 1], table, typ, walletId, q, less);
    }
  }

  // Reading all pages one request at a time gives every selected record exactly once, newest first,
  // whatever order the table happens to be stored in at each request. No record the matcher accepts
  // is missed, and nothing else is listed of the records on which the query is faithful.
  lemma ListingComplete(tables: seq<seq<Row>>, table: seq<Row>, typ: string, walletId: string, q: Query,
                        limit: int, less: TextOrder)
    requires limit >= 1 && StrictTotal(less) && WellFormed(table)
    requires forall i | 0 <= i < |tables| :: WellFormed(tables[i]) && SameRows(tables[i], table)
    requires |tables| == BuildRecordsPageMeta(|Scope(table, typ, walletId, q)|, 1, limit).totalPages
    ensures var read := PagesRead(tables, typ, walletId, q, limit, less);
      && NewestFirst(read, less)
      && (forall row :: row in read <==> row in table && InScope(row, typ, walletId, q))
      && (forall row | row in table && row.typ == typ && row.walletId == walletId && Matches(row.stored, q) ::
          row in read)
      && (forall row | row in read :: row.typ == typ && row.walletId == walletId)
      && (forall row | row in read && FaithfulOn(q, row.stored) :: Matches(row.stored, q))
  {
    forall row: Row ensures InScope(row, typ, walletId, q) <== row.typ == typ && row.walletId == walletId &&
        Matches(row.stored, q)
      ensures InScope(row, typ, walletId, q) ==> row.typ == typ && row.walletId == walletId
      ensures FaithfulOn(q, row.stored) && InScope(row, typ, walletId, q) ==> Matches(row.stored, q)
    {
      Agreement(q, row.stored);
    }
    hide Scope, OrderBy, InScope, WellFormed, Sorted, NewestFirst, Pages, RowOrder, StrictTotal, Matches;
    ListingProperties(table, typ, walletId, q, less);
    PagesReadArePages(tables, table, typ, walletId, q, limit, less);
    PagesPartition(OrderBy(Scope(table, typ, walletId, q), less), 1, limit);
  }
}
