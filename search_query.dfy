/**
 * The SQL side of the database-backed product store: its fixed statements, the search
 * statement built from the criteria, and the binding of that statement's parameters.
 */
module SearchQuery {
  import opened Criteria

  /** The column list and table every select reads from; the Java text block ends in a newline. */
  const SELECT_BASE_SQL: string := "SELECT id, name, category, brand, price, stock\nFROM app_schema.products\n"
  const FIND_BY_ID_SQL: string := SELECT_BASE_SQL + " WHERE id = ?"
  const FIND_ALL_SQL: string := SELECT_BASE_SQL + " ORDER BY name"
  const DELETE_BY_ID_SQL: string := "DELETE FROM app_schema.products\nWHERE id = ?\n"
  const INSERT_SQL: string := "INSERT INTO app_schema.products (name, category, brand, price, stock)\nVALUES (?, ?, ?, ?, ?)\n"
  const UPDATE_SQL: string := "UPDATE app_schema.products\nSET name = ?, category = ?, brand = ?, price = ?, stock = ?\nWHERE id = ?\n"

  /** What a search statement always starts and ends with. */
  const WHERE_ALWAYS: string := " WHERE 1=1"
  const ORDER_BY_NAME: string := " ORDER BY name"

  /** One clause per criterion, each with exactly one placeholder. */
  const CATEGORY_CLAUSE: string := " AND category ILIKE ?"
  const BRAND_CLAUSE: string := " AND brand ILIKE ?"
  const MIN_PRICE_CLAUSE: string := " AND price >= ?"
  const MAX_PRICE_CLAUSE: string := " AND price <= ?"

  /** A value bound to a placeholder: a text filter or a price bound. */
  datatype SqlParam = TextParam(text: string) | PriceParam(price: int)

  /** A built statement and its parameters, in placeholder order. */
  datatype DynamicQuery = DynamicQuery(sql: string, params: seq<SqlParam>)

  /** The number of `?` placeholders in a statement. */
  function Placeholders(s: string): nat
  {
    multiset(s)['?']
  }

  /** A statement whose `?` characters sit exactly at the positions `at` has one placeholder per position. */
  lemma {:induction false} PlaceholdersAt(s: string, at: set<nat>)
    requires forall i :: 0 <= i < |s| ==> (s[i] == '?' <==> i in at)
    requires forall i :: i in at ==> i < |s|
    ensures Placeholders(s) == |at|
    decreases |s|
  {
    if s == [] {
      assert at == {} by {
        forall i | i in at ensures false { }
      }
    } else {
      var n := |s| - 1;
      var t := s[..n];
      var rest := at - {n};
      assert forall i :: i in rest ==> i < |t|;
      forall i | 0 <= i < |t|
        ensures t[i] == '?' <==> i in rest
      {
        assert t[i] == s[i];
      }
      PlaceholdersAt(t, rest);
      assert s == t + [s[n]];
      assert multiset(s) == multiset(t) + multiset{s[n]};
      if s[n] == '?' {
        assert n in at && at == rest + {n} && n !in rest;
      } else {
        assert rest == at;
      }
    }
  }

  /** A filter of the search statement: its clause and the value for the clause's placeholder. */
  datatype Filter = Filter(clause: string, param: SqlParam)

  /** The filter of one criterion: one clause and its value when the criterion is set, nothing when it is null. */
  function CategoryFilter(c: SearchCriteria): seq<Filter>
  {
    if c.category.Some? then [Filter(CATEGORY_CLAUSE, TextParam(c.category.value))] else []
  }

  function BrandFilter(c: SearchCriteria): seq<Filter>
  {
    if c.brand.Some? then [Filter(BRAND_CLAUSE, TextParam(c.brand.value))] else []
  }

  function MinPriceFilter(c: SearchCriteria): seq<Filter>
  {
    if c.minPrice.Some? then [Filter(MIN_PRICE_CLAUSE, PriceParam(c.minPrice.value))] else []
  }

  function MaxPriceFilter(c: SearchCriteria): seq<Filter>
  {
    if c.maxPrice.Some? then [Filter(MAX_PRICE_CLAUSE, PriceParam(c.maxPrice.value))] else []
  }

  /**
   * The filters a criteria selects, in the fixed order category, brand, minimum price,
   * maximum price, each present exactly when its criterion is not null.
   */
  function Filters(c: SearchCriteria): (fs: seq<Filter>)
    ensures |fs| == (if c.category.Some? then 1 else 0) + (if c.brand.Some? then 1 else 0) +
                    (if c.minPrice.Some? then 1 else 0) + (if c.maxPrice.Some? then 1 else 0)
  {
    CategoryFilter(c) + BrandFilter(c) + MinPriceFilter(c) + MaxPriceFilter(c)
  }

  /** A statement whose only `?` is its last character has one placeholder. */
  lemma OneTrailingPlaceholder(s: string)
    requires |s| > 0 && s[|s| - 1] == '?'
    requires forall i :: 0 <= i < |s| - 1 ==> s[i] != '?'
    ensures Placeholders(s) == 1
  {
    PlaceholdersAt(s, {|s| - 1});
  }

  lemma CategoryClausePlaceholder()
    ensures Placeholders(CATEGORY_CLAUSE) == 1
  {
    assert forall i :: 0 <= i < |CATEGORY_CLAUSE| - 1 ==> CATEGORY_CLAUSE[i] != '?';
    OneTrailingPlaceholder(CATEGORY_CLAUSE);
  }

  lemma BrandClausePlaceholder()
    ensures Placeholders(BRAND_CLAUSE) == 1
  {
    assert forall i :: 0 <= i < |BRAND_CLAUSE| - 1 ==> BRAND_CLAUSE[i] != '?';
    OneTrailingPlaceholder(BRAND_CLAUSE);
  }

  lemma MinPriceClausePlaceholder()
    ensures Placeholders(MIN_PRICE_CLAUSE) == 1
  {
    assert forall i :: 0 <= i < |MIN_PRICE_CLAUSE| - 1 ==> MIN_PRICE_CLAUSE[i] != '?';
    OneTrailingPlaceholder(MIN_PRICE_CLAUSE);
  }

  lemma MaxPriceClausePlaceholder()
    ensures Placeholders(MAX_PRICE_CLAUSE) == 1
  {
    assert forall i :: 0 <= i < |MAX_PRICE_CLAUSE| - 1 ==> MAX_PRICE_CLAUSE[i] != '?';
    OneTrailingPlaceholder(MAX_PRICE_CLAUSE);
  }

  /** The clauses of some filters, one after another. */
  function Clauses(fs: seq<Filter>): string
  {
    if fs == [] then "" else fs[0].clause + Clauses(fs[1..])
  }

  /** The parameters of some filters, in the same order. */
  function Params(fs: seq<Filter>): (ps: seq<SqlParam>)
    ensures |ps| == |fs|
    ensures forall i :: 0 <= i < |fs| ==> ps[i] == fs[i].param
  {
    if fs == [] then [] else [fs[0].param] + Params(fs[1..])
  }

  lemma {:induction false} ClausesAppend(fs: seq<Filter>, gs: seq<Filter>)
    ensures Clauses(fs + gs) == Clauses(fs) + Clauses(gs)
    decreases |fs|
  {
    if fs == [] {
      assert fs + gs == gs;
    } else {
      assert (fs + gs)[1..] == fs[1..] + gs;
      ClausesAppend(fs[1..], gs);
    }
  }

  lemma {:induction false} ParamsAppend(fs: seq<Filter>, gs: seq<Filter>)
    ensures Params(fs + gs) == Params(fs) + Params(gs)
    decreases |fs|
  {
    if fs == [] {
      assert fs + gs == gs;
    } else {
      assert (fs + gs)[1..] == fs[1..] + gs;
      ParamsAppend(fs[1..], gs);
    }
  }

  /** Appending filters to a statement appends their clauses and their parameters, in order. */
  lemma AppendFilters(head: string, done: seq<Filter>, fs: seq<Filter>)
    ensures head + Clauses(done) + Clauses(fs) == head + Clauses(done + fs)
    ensures Params(done) + Params(fs) == Params(done + fs)
  {
    ClausesAppend(done, fs);
    ParamsAppend(done, fs);
    assert head + Clauses(done) + Clauses(fs) == head + (Clauses(done) + Clauses(fs));
  }

  /** A single filter's clause and parameter. */
  lemma SingleFilter(fs: seq<Filter>)
    requires |fs| == 1
    ensures Clauses(fs) == fs[0].clause && Params(fs) == [fs[0].param]
  {
    assert fs[1..] == [];
  }

  /** One step of the builder: appending no filter or one filter keeps text and parameters in step. */
  lemma AppendStep(head: string, done: seq<Filter>, fs: seq<Filter>,
                   sql: string, params: seq<SqlParam>, sql': string, params': seq<SqlParam>)
    requires sql == head + Clauses(done) && params == Params(done)
    requires |fs| <= 1
    requires |fs| == 0 ==> sql' == sql && params' == params
    requires |fs| == 1 ==> sql' == sql + fs[0].clause && params' == params + [fs[0].param]
    ensures sql' == head + Clauses(done + fs) && params' == Params(done + fs)
    ensures done == [] ==> sql' == head + Clauses(fs) && params' == Params(fs)
  {
    AppendFilters(head, done, fs);
    if |fs| == 1 {
      SingleFilter(fs);
    }
    if |fs| == 0 {
      assert done + fs == done;
    }
    if done == [] {
      assert done + fs == fs;
    }
  }

  /** Each criterion contributes its own clause, with its value as the parameter, when it is set, and no clause when it is null. */
  lemma FilterPerCriterion(c: SearchCriteria)
    ensures c.category.Some? ==> Filter(CATEGORY_CLAUSE, TextParam(c.category.value)) in Filters(c)
    ensures c.category.None? ==> forall f :: f in Filters(c) ==> f.clause != CATEGORY_CLAUSE
    ensures c.brand.Some? ==> Filter(BRAND_CLAUSE, TextParam(c.brand.value)) in Filters(c)
    ensures c.brand.None? ==> forall f :: f in Filters(c) ==> f.clause != BRAND_CLAUSE
    ensures c.minPrice.Some? ==> Filter(MIN_PRICE_CLAUSE, PriceParam(c.minPrice.value)) in Filters(c)
    ensures c.minPrice.None? ==> forall f :: f in Filters(c) ==> f.clause != MIN_PRICE_CLAUSE
    ensures c.maxPrice.Some? ==> Filter(MAX_PRICE_CLAUSE, PriceParam(c.maxPrice.value)) in Filters(c)
    ensures c.maxPrice.None? ==> forall f :: f in Filters(c) ==> f.clause != MAX_PRICE_CLAUSE
  {
  }

  /** The statement text for some criteria: the base select, the always-true WHERE, the clauses, the ordering. */
  function SearchSql(c: SearchCriteria): string
  {
    SELECT_BASE_SQL + WHERE_ALWAYS + Clauses(Filters(c)) + ORDER_BY_NAME
  }

  /** The clause of one criterion carries a placeholder exactly when the criterion binds a parameter. */
  lemma CategoryFilterPlaceholders(c: SearchCriteria)
    ensures Placeholders(Clauses(CategoryFilter(c))) == |CategoryFilter(c)|
  {
    if c.category.Some? {
      SingleFilter(CategoryFilter(c));
      CategoryClausePlaceholder();
    }
  }

  lemma BrandFilterPlaceholders(c: SearchCriteria)
    ensures Placeholders(Clauses(BrandFilter(c))) == |BrandFilter(c)|
  {
    if c.brand.Some? {
      SingleFilter(BrandFilter(c));
      BrandClausePlaceholder();
    }
  }

  lemma MinPriceFilterPlaceholders(c: SearchCriteria)
    ensures Placeholders(Clauses(MinPriceFilter(c))) == |MinPriceFilter(c)|
  {
    if c.minPrice.Some? {
      SingleFilter(MinPriceFilter(c));
      MinPriceClausePlaceholder();
    }
  }

  lemma MaxPriceFilterPlaceholders(c: SearchCriteria)
    ensures Placeholders(Clauses(MaxPriceFilter(c))) == |MaxPriceFilter(c)|
  {
    if c.maxPrice.Some? {
      SingleFilter(MaxPriceFilter(c));
      MaxPriceClausePlaceholder();
    }
  }

  /** The clauses a search adds carry exactly one placeholder per parameter it binds. */
  lemma AddedPlaceholders(c: SearchCriteria)
    ensures Placeholders(Clauses(Filters(c))) == |Params(Filters(c))|
  {
    var cat, brand, lo, hi := CategoryFilter(c), BrandFilter(c), MinPriceFilter(c), MaxPriceFilter(c);
    ClausesAppend(cat, brand);
    ClausesAppend(cat + brand, lo);
    ClausesAppend(cat + brand + lo, hi);
    CategoryFilterPlaceholders(c);
    BrandFilterPlaceholders(c);
    MinPriceFilterPlaceholders(c);
    MaxPriceFilterPlaceholders(c);
  }

  /**
   * A search statement starts with the base select and the always-true WHERE and ends with
   * the ordering by name; with every criterion null it is exactly those and binds nothing.
   */
  lemma SearchSqlFraming(c: SearchCriteria)
    ensures SELECT_BASE_SQL + WHERE_ALWAYS <= SearchSql(c)
    ensures SearchSql(c)[|SearchSql(c)| - |ORDER_BY_NAME|..] == ORDER_BY_NAME
    ensures c == NoFilters ==> SearchSql(c) == SELECT_BASE_SQL + WHERE_ALWAYS + ORDER_BY_NAME && Params(Filters(c)) == []
  {
    var head, middle := SELECT_BASE_SQL + WHERE_ALWAYS, Clauses(Filters(c));
    assert SearchSql(c) == head + (middle + ORDER_BY_NAME);
  }

  /**
   * Builds the search statement step by step: the base select, the always-true WHERE, one
   * clause and one parameter per non-null criterion in the fixed order, then the ordering.
   */
  method BuildSearchQuery(criteria: SearchCriteria) returns (query: DynamicQuery)
    ensures query.sql == SearchSql(criteria) && query.params == Params(Filters(criteria))
  {
    var sql := SELECT_BASE_SQL;
    var params: seq<SqlParam> := [];
    sql := sql + WHERE_ALWAYS;
    // What precedes the clauses, and the filters whose clauses follow it so far.
    ghost var head := sql;
    ghost var sql0, params0 := sql, params;
    if criteria.category.Some? {
      sql := sql + CATEGORY_CLAUSE;
      params := params + [TextParam(criteria.category.value)];
    }
    AppendStep(head, [], CategoryFilter(criteria), sql0, params0, sql, params);
    ghost var done := CategoryFilter(criteria);

    sql0, params0 := sql, params;
    if criteria.brand.Some? {
      sql := sql + BRAND_CLAUSE;
      params := params + [TextParam(criteria.brand.value)];
    }
    AppendStep(head, done, BrandFilter(criteria), sql0, params0, sql, params);
    done := done + BrandFilter(criteria);

    sql0, params0 := sql, params;
    if criteria.minPrice.Some? {
      sql := sql + MIN_PRICE_CLAUSE;
      params := params + [PriceParam(criteria.minPrice.value)];
    }
    AppendStep(head, done, MinPriceFilter(criteria), sql0, params0, sql, params);
    done := done + MinPriceFilter(criteria);

    sql0, params0 := sql, params;
    if criteria.maxPrice.Some? {
      sql := sql + MAX_PRICE_CLAUSE;
      params := params + [PriceParam(criteria.maxPrice.value)];
    }
    AppendStep(head, done, MaxPriceFilter(criteria), sql0, params0, sql, params);
    done := done + MaxPriceFilter(criteria);
    sql := sql + ORDER_BY_NAME;
    query := DynamicQuery(sql, params);
  }

  /** The prepared statement's parameter slots, by 1-based position. */
  class PreparedStatement {
    const sql: string
    var bound: map<int, SqlParam>

    constructor (sql: string)
      ensures this.sql == sql && bound == map[]
    {
      this.sql := sql;
      bound := map[];
    }

    method SetObject(index: int, value: SqlParam)
      modifies this
      ensures bound == old(bound)[index := value]
    {
      bound := bound[index := value];
    }
  }

  /**
   * Binds every parameter in list order, parameter `i` at the 1-based position `i + 1`;
   * the slots past the list keep what they held.
   */
  method SetParameters(statement: PreparedStatement, params: seq<SqlParam>)
    modifies statement
    ensures forall i :: 0 <= i < |params| ==> i + 1 in statement.bound && statement.bound[i + 1] == params[i]
    ensures forall j :: j in statement.bound <==> j in old(statement.bound) || 1 <= j <= |params|
    ensures forall j :: j in old(statement.bound) && !(1 <= j <= |params|) ==> statement.bound[j] == old(statement.bound)[j]
  {
    var i := 0;
    while i < |params|
      invariant 0 <= i <= |params|
      invariant forall k :: 0 <= k < i ==> k + 1 in statement.bound && statement.bound[k + 1] == params[k]
      invariant forall j :: j in statement.bound <==> j in old(statement.bound) || 1 <= j <= i
      invariant forall j :: j in old(statement.bound) && !(1 <= j <= i) ==> statement.bound[j] == old(statement.bound)[j]
    {
      statement.SetObject(i + 1, params[i]);
      i := i + 1;
    }
  }
}
