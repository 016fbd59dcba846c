/** The query text and parameters `get_filtered_listings` and
    `get_all_listings` build (`utils/database.py`), and what SQLite makes of
    the filtered query: which clause each filter adds, how the `?`
    placeholders are bound to the parameters, and which rows satisfy the
    result. */
module FilterQuery {
  import opened Wrappers
  import opened Text
  import opened SqlValues
  import opened Collections

  // ---------------------------------------------------------------------
  // Inputs
  // ---------------------------------------------------------------------

  /** A filter value: a scalar, or a tuple of any length (a range when it
      has two items). `SqlNull` stands for Python's None. */
  datatype FilterValue = Scalar(x: SqlValue) | Tuple(items: seq<SqlValue>)

  /** A filter: a column name, spliced verbatim into the SQL, and a value;
      a sequence of them is the filter dict in iteration order. */
  type Filter = (string, FilterValue)

  const NotNullSentinel: string := "IS NOT NULL"

  // ---------------------------------------------------------------------
  // The query text
  // ---------------------------------------------------------------------

  /** The columns both listing queries select, in order, written in four
      runs so that facts about every name can be proved run by run. */
  const ListingColumns: seq<string> := ColumnsA + ColumnsB + ColumnsC + ColumnsD

  const ColumnsA: seq<string> := [
    "id", "address", "city", "state", "zip", "price", "beds", "baths", "sqft",
    "price_per_sqft", "url", "from_collection"]
  const ColumnsB: seq<string> := [
    "source", "imported_at", "estimated_rent", "rent_yield", "mls_number", "mls_type",
    "tax_information", "days_on_compass", "last_updated", "favorite", "year_built", "lot_size"]
  const ColumnsC: seq<string> := [
    "hoa_fee", "parking", "heating", "cooling", "style", "construction",
    "days_on_market", "status", "agent_name", "agent_phone", "agent_email", "schools_json"]
  const ColumnsD: seq<string> := [
    "price_history_json", "walk_score", "transit_score", "bike_score",
    "walkscore_shorturl", "compass_shorturl", "latitude", "longitude",
    "created_at", "estimated_monthly_cashflow", "db_updated_at"]

  /** `', '.join(f'"{col}"' for col in cols)`. */
  function QuotedList(cols: seq<string>): string {
    if cols == [] then ""
    else if |cols| == 1 then "\"" + cols[0] + "\""
    else "\"" + cols[0] + "\", " + QuotedList(cols[1..])
  }

  /** The fixed head of the filtered query: the select list, the always-true
      `1=1` and the case-insensitive blacklist exclusion. */
  function FilteredBase(): string {
    "\n        SELECT " + QuotedList(ListingColumns) + " \n"
    + "        FROM listings l\n"
    + "        WHERE 1=1\n"
    + "        AND NOT EXISTS (\n"
    + "            SELECT 1 FROM address_blacklist b \n"
    + "            WHERE LOWER(l.address) = " + "LOWER(b.address)\n"
    + "        )\n    "
  }

  /** One condition appended to the WHERE clause; the value it compares
      with, if any, travels as a parameter. */
  datatype Clause = AtLeastParam(column: string) | AtMostParam(column: string)
                  | NotNullTest(column: string) | EqualsParam(column: string)

  /** The text of a clause: the column, then the comparison. */
  function ClauseSql(c: Clause): string {
    " AND " + c.column + Comparison(c)
  }

  function Comparison(c: Clause): string {
    match c
    case AtLeastParam(_) => " >= ?"
    case AtMostParam(_) => " <= ?"
    case NotNullTest(_) => " IS NOT NULL"
    case EqualsParam(_) => " = ?"
  }

  /** The WHERE conditions the clauses append, in order. */
  function WhereText(cs: seq<Clause>): string {
    ConcatMap(ClauseSql, cs)
  }

  /** How many parameters a clause list takes: one per comparison. */
  function Placeholders(cs: seq<Clause>): (n: nat)
    ensures n <= |cs|
  {
    if cs == [] then 0
    else Placeholders(cs[..|cs| - 1]) + (if cs[|cs| - 1].NotNullTest? then 0 else 1)
  }

  /** A bound parameter: a value sqlite3 can bind, or a tuple, which it
      cannot. */
  datatype Param = Value(v: SqlValue) | TupleParam(items: seq<SqlValue>)

  /** `value[0]` on the empty tuple: the IndexError escapes the function,
      as it is raised before the `try`. */
  datatype BuildError = EmptyTupleIndex(column: string)

  // ---------------------------------------------------------------------
  // The builder
  // ---------------------------------------------------------------------

  /** The clauses one filter adds. A two-item tuple is a range, whatever
      its first item is, with a bound only where it is not None; another
      tuple starting with the sentinel is a null test; anything else is an
      equality. The empty tuple is refused by the caller. */
  function ClausesFor(col: string, v: FilterValue): seq<Clause> {
    match v
    case Tuple(items) =>
      if |items| == 2 then
        (if items[0] != SqlNull then [AtLeastParam(col)] else [])
        + (if items[1] != SqlNull then [AtMostParam(col)] else [])
      else if |items| > 0 && items[0] == SqlText(NotNullSentinel) then [NotNullTest(col)]
      else [EqualsParam(col)]
    case Scalar(_) => [EqualsParam(col)]
  }

  /** The parameters one filter adds, in the order of its clauses. */
  function ParamsFor(v: FilterValue): seq<Param> {
    match v
    case Tuple(items) =>
      if |items| == 2 then
        (if items[0] != SqlNull then [Value(items[0])] else [])
        + (if items[1] != SqlNull then [Value(items[1])] else [])
      else if |items| > 0 && items[0] == SqlText(NotNullSentinel) then []
      else [TupleParam(items)]
    case Scalar(x) => [Value(x)]
  }

  /** A filter adds one parameter per placeholder. */
  lemma ParamsForPlaceholders(col: string, v: FilterValue)
    ensures |ParamsFor(v)| == Placeholders(ClausesFor(col, v))
  {
    if v.Tuple? && |v.items| == 2 {
      var lo := if v.items[0] != SqlNull then [AtLeastParam(col)] else [];
      var hi := if v.items[1] != SqlNull then [AtMostParam(col)] else [];
      PlaceholdersAppend(lo, hi);
    }
  }

  /** The first filter whose value is the empty tuple, if any. */
  predicate EmptyTupleAt(fs: seq<Filter>, i: int) {
    0 <= i < |fs| && fs[i].1 == Tuple([])
  }

  /** The clause list and the parameter list the loop builds. It fails with
      the first filter whose value is the empty tuple; otherwise it keeps one
      parameter per placeholder. */
  function BuildSpec(fs: seq<Filter>): (r: Result<(seq<Clause>, seq<Param>), BuildError>)
    ensures r.Failure? <==> exists i :: EmptyTupleAt(fs, i)
    ensures r.Failure? ==> exists i :: EmptyTupleAt(fs, i) && r.error == EmptyTupleIndex(fs[i].0)
                                        && forall j :: 0 <= j < i ==> !EmptyTupleAt(fs, j)
    ensures r.Success? ==> |r.value.1| == Placeholders(r.value.0)
  {
    if fs == [] then Success(([], []))
    else
      var init, (col, v) := fs[..|fs| - 1], fs[|fs| - 1];
      assert forall i :: 0 <= i < |fs| - 1 ==> (EmptyTupleAt(init, i) <==> EmptyTupleAt(fs, i));
      match BuildSpec(init)
      case Failure(e) => Failure(e)
      case Success((cs, ps)) =>
        if v == Tuple([]) then
          assert EmptyTupleAt(fs, |fs| - 1);
          Failure(EmptyTupleIndex(col))
        else
          PlaceholdersAppend(cs, ClausesFor(col, v));
          ParamsForPlaceholders(col, v);
          Success((cs + ClausesFor(col, v), ps + ParamsFor(v)))
  }

  /** The query `get_filtered_listings` runs, with its parameters, or the
      IndexError it raises. */
  method BuildFilteredQuery(fs: seq<Filter>) returns (r: Result<(string, seq<Param>), BuildError>)
    ensures r.Failure? ==> BuildSpec(fs) == Failure(r.error)
    ensures r.Success? ==> (BuildSpec(fs).Success?
      && r.value == (FilteredBase() + WhereText(BuildSpec(fs).value.0), BuildSpec(fs).value.1))
  {
    var query := FilteredBase();
    ghost var base := query;
    var params: seq<Param> := [];
    ghost var clauses: seq<Clause> := [];
    for i := 0 to |fs|
      invariant BuildSpec(fs[..i]) == Success((clauses, params))
      invariant query == base + WhereText(clauses)
    {
      assert fs[..i + 1][..i] == fs[..i];
      var (column, value) := fs[i];
      if value == Tuple([]) {
        assert EmptyTupleAt(fs, i);
        assert forall j :: 0 <= j < i ==> (EmptyTupleAt(fs[..i], j) <==> EmptyTupleAt(fs, j));
        return Failure(EmptyTupleIndex(column));
      }
      query, params := AppendFilter(query, params, column, value, base, clauses);
      clauses := clauses + ClausesFor(column, value);
    }
    assert fs[..|fs|] == fs;
    return Success((query, params));
  }

  /** One pass of the loop: the text and the parameters one filter adds. */
  method AppendFilter(query: string, params: seq<Param>, column: string, value: FilterValue,
                      ghost base: string, ghost cs: seq<Clause>)
    returns (query': string, params': seq<Param>)
    requires value != Tuple([])
    requires query == base + WhereText(cs)
    ensures query' == base + WhereText(cs + ClausesFor(column, value))
    ensures params' == params + ParamsFor(value)
  {
    query', params' := query, params;
    match value {
      case Tuple(items) =>
        if |items| == 2 {
          query', params' := AppendRange(query, params, column, items[0], items[1], base, cs);
          assert value == Tuple([items[0], items[1]]);
        } else if items[0] == SqlText(NotNullSentinel) {
          AppendClause(query', base, cs, NotNullTest(column));
          query' := query' + (" AND " + column + " IS NOT NULL");
        } else {
          AppendClause(query', base, cs, EqualsParam(column));
          query' := query' + (" AND " + column + " = ?");
          params' := params' + [TupleParam(items)];
        }
      case Scalar(x) =>
        AppendClause(query', base, cs, EqualsParam(column));
        query' := query' + (" AND " + column + " = ?");
        params' := params' + [Value(x)];
    }
  }

  /** The range branch of the loop: a `>=` clause for a lower bound that is
      not None, then a `<=` clause for an upper bound that is not None. */
  method AppendRange(query: string, params: seq<Param>, column: string, minVal: SqlValue, maxVal: SqlValue,
                     ghost base: string, ghost cs: seq<Clause>)
    returns (query': string, params': seq<Param>)
    requires query == base + WhereText(cs)
    ensures query' == base + WhereText(cs + ClausesFor(column, Tuple([minVal, maxVal])))
    ensures params' == params + ParamsFor(Tuple([minVal, maxVal]))
  {
    ghost var lo := if minVal != SqlNull then [AtLeastParam(column)] else [];
    ghost var hi := if maxVal != SqlNull then [AtMostParam(column)] else [];
    var q, p := AppendMin(query, params, column, minVal, base, cs);
    query', params' := AppendMax(q, p, column, maxVal, base, cs + lo);
    ghost var plo := if minVal != SqlNull then [Value(minVal)] else [];
    ghost var phi := if maxVal != SqlNull then [Value(maxVal)] else [];
    assert ClausesFor(column, Tuple([minVal, maxVal])) == lo + hi;
    assert ParamsFor(Tuple([minVal, maxVal])) == plo + phi;
    AppendAssoc(cs, lo, hi);
    AppendAssoc(params, plo, phi);
  }

  /** The lower bound of a range: `column >= ?` unless the bound is NULL. */
  method AppendMin(query: string, params: seq<Param>, column: string, minVal: SqlValue,
                   ghost base: string, ghost cs: seq<Clause>)
    returns (query': string, params': seq<Param>)
    requires query == base + WhereText(cs)
    ensures query' == base + WhereText(cs + if minVal != SqlNull then [AtLeastParam(column)] else [])
    ensures params' == params + if minVal != SqlNull then [Value(minVal)] else []
  {
    query', params' := query, params;
    if minVal != SqlNull {
      AppendClause(query, base, cs, AtLeastParam(column));
      query' := query + (" AND " + column + " >= ?");
      params' := params + [Value(minVal)];
    } else {
      assert cs + [] == cs;
    }
  }

  /** The upper bound of a range: `column <= ?` unless the bound is NULL. */
  method AppendMax(query: string, params: seq<Param>, column: string, maxVal: SqlValue,
                   ghost base: string, ghost cs: seq<Clause>)
    returns (query': string, params': seq<Param>)
    requires query == base + WhereText(cs)
    ensures query' == base + WhereText(cs + if maxVal != SqlNull then [AtMostParam(column)] else [])
    ensures params' == params + if maxVal != SqlNull then [Value(maxVal)] else []
  {
    query', params' := query, params;
    if maxVal != SqlNull {
      AppendClause(query, base, cs, AtMostParam(column));
      query' := query + (" AND " + column + " <= ?");
      params' := params + [Value(maxVal)];
    } else {
      assert cs + [] == cs;
    }
  }

  /** Appending a clause's text to the query appends the clause. */
  lemma AppendClause(query: string, base: string, cs: seq<Clause>, c: Clause)
    requires query == base + WhereText(cs)
    ensures query + (" AND " + c.column + Comparison(c)) == base + WhereText(cs + [c])
  {
    assert (cs + [c])[..|cs|] == cs;
    AppendAssoc(base, WhereText(cs), ClauseSql(c));
  }

  lemma AppendAssoc<T>(a: seq<T>, b: seq<T>, c: seq<T>)
    ensures (a + b) + c == a + (b + c)
  {
  }

  lemma {:induction false} PlaceholdersAppend(a: seq<Clause>, b: seq<Clause>)
    ensures Placeholders(a + b) == Placeholders(a) + Placeholders(b)
    decreases |b|
  {
    if b == [] {
      assert a + b == a;
    } else {
      PlaceholdersAppend(a, b[..|b| - 1]);
      assert (a + b)[..|a + b| - 1] == a + b[..|b| - 1];
    }
  }

  // ---------------------------------------------------------------------
  // Properties of the text
  // ---------------------------------------------------------------------

  /** No name in `cols` holds a `?`. */
  predicate NoPlaceholderIn(cols: seq<string>) {
    forall name :: name in cols ==> '?' !in name
  }

  lemma SelectListClean()
    ensures NoPlaceholderIn(ListingColumns)
  {
    RunAClean();
    RunBClean();
    RunCClean();
    RunDClean();
  }

  lemma RunAClean() ensures NoPlaceholderIn(ColumnsA) {}
  lemma RunBClean() ensures NoPlaceholderIn(ColumnsB) {}
  lemma RunCClean() ensures NoPlaceholderIn(ColumnsC) {}
  lemma RunDClean() ensures NoPlaceholderIn(ColumnsD) {}

  lemma {:induction false} QuotedListClean(cols: seq<string>)
    requires NoPlaceholderIn(cols)
    ensures '?' !in QuotedList(cols)
  {
    if |cols| > 1 {
      QuotedListClean(cols[1..]);
    }
  }

  /** The fixed head of the filtered query holds no placeholder. */
  lemma BaseHasNoPlaceholder()
    ensures CountChar(FilteredBase(), '?') == 0
  {
    SelectListClean();
    QuotedListClean(ListingColumns);
    FixedTextClean();
    FixedTextCleanToo();
    FixedTextCleanAsWell();
  }

  lemma FixedTextClean()
    ensures '?' !in "\n        SELECT " && '?' !in " \n" && '?' !in "        FROM listings l\n"
  {
  }

  lemma FixedTextCleanToo()
    ensures '?' !in "        WHERE 1=1\n" && '?' !in "        AND NOT EXISTS (\n"
    ensures '?' !in "            SELECT 1 FROM address_blacklist b \n"
  {
  }

  lemma FixedTextCleanAsWell()
    ensures '?' !in "            WHERE LOWER(l.address) = " && '?' !in "LOWER(b.address)\n"
    ensures '?' !in "        )\n    "
  {
  }

  /** When no filtered column name holds a `?`, the query has exactly one
      placeholder per parameter, so the statement binds positionally. */
  lemma {:induction false} PlaceholderCount(fs: seq<Filter>)
    requires BuildSpec(fs).Success?
    requires forall i :: 0 <= i < |fs| ==> '?' !in fs[i].0
    ensures CountChar(FilteredBase() + WhereText(BuildSpec(fs).value.0), '?') == |BuildSpec(fs).value.1|
  {
    var cs := BuildSpec(fs).value.0;
    ClausesNameFilteredColumns(fs);
    ClauseTextCount(cs);
    BaseHasNoPlaceholder();
    CountCharAppend(FilteredBase(), WhereText(cs), '?');
  }

  /** Every clause is on the column of the filter that added it. */
  lemma {:induction false} ClausesNameFilteredColumns(fs: seq<Filter>)
    requires BuildSpec(fs).Success?
    ensures forall c :: c in BuildSpec(fs).value.0 ==> exists i :: 0 <= i < |fs| && c.column == fs[i].0
  {
    if fs != [] {
      var n := |fs| - 1;
      var init := fs[..n];
      ClausesNameFilteredColumns(init);
      var cs := BuildSpec(init).value.0;
      var cs' := ClausesFor(fs[n].0, fs[n].1);
      ClausesForColumn(fs[n].0, fs[n].1);
      assert BuildSpec(fs).value.0 == cs + cs';
      forall c: Clause | c in cs + cs' ensures exists i :: 0 <= i < |fs| && c.column == fs[i].0 {
        if c in cs {
          var i :| 0 <= i < n && c.column == init[i].0;
          assert fs[i] == init[i];
        } else {
          assert c.column == fs[n].0;
        }
      }
    }
  }

  /** Every clause a filter adds is on its column. */
  lemma ClausesForColumn(col: string, v: FilterValue)
    ensures forall c :: c in ClausesFor(col, v) ==> c.column == col
  {
  }

  /** The WHERE text holds one `?` per placeholder the clauses take, when
      no column name holds one. */
  lemma {:induction false} ClauseTextCount(cs: seq<Clause>)
    requires forall c :: c in cs ==> '?' !in c.column
    ensures CountChar(WhereText(cs), '?') == Placeholders(cs)
    decreases |cs|
  {
    if cs != [] {
      var init, c := cs[..|cs| - 1], cs[|cs| - 1];
      ClauseTextCount(init);
      CountCharAppend(WhereText(init), ClauseSql(c), '?');
      ClauseCount(c);
    }
  }

  /** A clause's text holds a `?` exactly when it takes a parameter. */
  lemma ClauseCount(c: Clause)
    requires '?' !in c.column
    ensures CountChar(ClauseSql(c), '?') == if c.NotNullTest? then 0 else 1
  {
    CountCharAppend(" AND " + c.column, Comparison(c), '?');
    CountCharAppend(" AND ", c.column, '?');
    assert '?' !in " AND ";
    ComparisonCount(c);
  }

  lemma ComparisonCount(c: Clause)
    ensures CountChar(Comparison(c), '?') == if c.NotNullTest? then 0 else 1
  {
    if c.NotNullTest? {
      assert '?' !in " IS NOT NULL";
    } else {
      var op := Comparison(c)[..|Comparison(c)| - 1];
      assert Comparison(c) == op + "?";
      assert '?' !in op;
      CountCharAppend(op, "?", '?');
      assert CountChar("?", '?') == 1 + CountChar([], '?');
    }
  }

  /** The shape of a filter value: what the builder branches on. */
  datatype ValueShape = ScalarShape | TupleShape(size: nat, hasMin: bool, hasMax: bool, sentinel: bool)

  function Shape(v: FilterValue): ValueShape {
    match v
    case Scalar(_) => ScalarShape
    case Tuple(items) =>
      if |items| == 2 then TupleShape(2, items[0] != SqlNull, items[1] != SqlNull, false)
      else TupleShape(|items|, false, false, |items| > 0 && items[0] == SqlText(NotNullSentinel))
  }

  /** The SQL text depends on the filters' columns and shapes only: two
      filter lists that differ in their values give the same text, so no
      value is ever spliced into it. */
  lemma {:induction false} TextIgnoresValues(fs: seq<Filter>, gs: seq<Filter>)
    requires |fs| == |gs|
    requires forall i :: 0 <= i < |fs| ==> fs[i].0 == gs[i].0 && Shape(fs[i].1) == Shape(gs[i].1)
    ensures BuildSpec(fs).Success? <==> BuildSpec(gs).Success?
    ensures BuildSpec(fs).Success? ==>
      WhereText(BuildSpec(fs).value.0) == WhereText(BuildSpec(gs).value.0)
  {
    SameShapeSameClauses(fs, gs);
  }

  lemma {:induction false} SameShapeSameClauses(fs: seq<Filter>, gs: seq<Filter>)
    requires |fs| == |gs|
    requires forall i :: 0 <= i < |fs| ==> fs[i].0 == gs[i].0 && Shape(fs[i].1) == Shape(gs[i].1)
    ensures BuildSpec(fs).Success? <==> BuildSpec(gs).Success?
    ensures BuildSpec(fs).Success? ==> BuildSpec(fs).value.0 == BuildSpec(gs).value.0
  {
    if fs != [] {
      var n := |fs| - 1;
      var col, v, w := fs[n].0, fs[n].1, gs[n].1;
      SameShapeSameClauses(fs[..n], gs[..n]);
      ClausesForShape(col, v, w);
      assert BuildSpec(fs) == Extend(BuildSpec(fs[..n]), col, v);
      assert BuildSpec(gs) == Extend(BuildSpec(gs[..n]), col, w);
    }
  }

  /** One step of `BuildSpec`. */
  function Extend(r: Result<(seq<Clause>, seq<Param>), BuildError>, col: string, v: FilterValue)
    : Result<(seq<Clause>, seq<Param>), BuildError>
  {
    match r
    case Failure(e) => Failure(e)
    case Success((cs, ps)) =>
      if v == Tuple([]) then Failure(EmptyTupleIndex(col))
      else Success((cs + ClausesFor(col, v), ps + ParamsFor(v)))
  }

  lemma ClausesForShape(col: string, v: FilterValue, w: FilterValue)
    requires Shape(v) == Shape(w)
    ensures (v == Tuple([])) == (w == Tuple([]))
    ensures ClausesFor(col, v) == ClausesFor(col, w)
  {
  }

  // ---------------------------------------------------------------------
  // get_all_listings
  // ---------------------------------------------------------------------

  /** Python's truthiness of the `limit` argument: None and 0 are false. */
  predicate Truthy(limit: Option<int>) {
    limit.Some? && limit.value != 0
  }

  /** The query `get_all_listings` runs. */
  function AllListingsQuery(limit: Option<int>): string {
    "SELECT " + QuotedList(ListingColumns) + " FROM listings"
    + (if Truthy(limit) then " LIMIT " + IntToString(limit.value) else "")
  }

  /** The LIMIT clause is there exactly when `limit` is truthy, and it
      carries `limit` itself. */
  lemma AllListingsLimit(limit: Option<int>)
    ensures var base := "SELECT " + QuotedList(ListingColumns) + " FROM listings";
      && AllListingsQuery(limit)[..|base|] == base
      && (Truthy(limit) <==> |AllListingsQuery(limit)| > |base|)
      && (Truthy(limit) ==>
            AllListingsQuery(limit)[|base|..|base| + 7] == " LIMIT "
            && ParseInt(AllListingsQuery(limit)[|base| + 7..]) == Some(limit.value))
  {
    var base := "SELECT " + QuotedList(ListingColumns) + " FROM listings";
    if Truthy(limit) {
      var num := IntToString(limit.value);
      assert AllListingsQuery(limit) == base + " LIMIT " + num;
      assert AllListingsQuery(limit)[|base| + 7..] == num;
      ParseIntOfString(limit.value);
      assert |num| > 0;
    } else {
      assert AllListingsQuery(limit) == base;
    }
  }
}
