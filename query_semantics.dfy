/** What SQLite returns for the filtered listing query: a stored row, the
    blacklist match, the conditions the WHERE clause holds once its
    placeholders are bound, and the rows that satisfy them. The main result,
    `FilteredRowsMeaning`, reads the answer off the filters themselves. */
module QuerySemantics {
  import opened Wrappers
  import opened Text
  import opened SqlValues
  import opened Collections
  import opened FilterQuery

  // ---------------------------------------------------------------------
  // Stored rows
  // ---------------------------------------------------------------------

  /** A row of the `listings` table: its values by column name; a column the
      map lacks holds NULL. */
  datatype Row = Row(values: map<string, SqlValue>)

  function ValueOf(r: Row, col: string): SqlValue {
    if col in r.values then r.values[col] else SqlNull
  }

  /** A row of `address_blacklist`; the time stamp is left out. */
  datatype BlacklistEntry = BlacklistEntry(address: string, reason: Option<string>)

  /** `LOWER(x) = LOWER(address)` for a text `x`; NULL never matches. */
  predicate AddressMatches(x: SqlValue, address: string) {
    x.SqlText? && Lower(x.s) == Lower(address)
  }

  /** The `NOT EXISTS` sub-query finds an entry for the row's address. */
  predicate Blacklisted(r: Row, blacklist: seq<BlacklistEntry>) {
    exists k :: 0 <= k < |blacklist| && AddressMatches(ValueOf(r, "address"), blacklist[k].address)
  }

  // ---------------------------------------------------------------------
  // Binding and evaluating the WHERE clause
  // ---------------------------------------------------------------------

  /** A condition of the WHERE clause with its parameter bound. */
  datatype Cond = Ge(column: string, bound: SqlValue) | Le(column: string, bound: SqlValue)
                | NotNull(column: string) | Eq(column: string, bound: SqlValue)

  predicate Holds(r: Row, c: Cond) {
    match c
    case Ge(col, b) => AtLeast(ValueOf(r, col), b)
    case Le(col, b) => AtMost(ValueOf(r, col), b)
    case NotNull(col) => !ValueOf(r, col).SqlNull?
    case Eq(col, b) => Equal(ValueOf(r, col), b)
  }

  predicate AllHold(r: Row, conds: seq<Cond>) {
    forall k :: 0 <= k < |conds| ==> Holds(r, conds[k])
  }

  function BindOne(c: Clause, x: SqlValue): Cond
    requires !c.NotNullTest?
  {
    match c
    case AtLeastParam(col) => Ge(col, x)
    case AtMostParam(col) => Le(col, x)
    case EqualsParam(col) => Eq(col, x)
  }

  /** The placeholders take the parameters in order; a tuple cannot be
      bound, and binding fails. */
  function Bind(cs: seq<Clause>, ps: seq<Param>): (r: Option<seq<Cond>>)
    requires |ps| == Placeholders(cs)
    ensures r.Some? ==> |r.value| == |cs|
    decreases |cs|
  {
    if cs == [] then Some([])
    else
      var init, c := cs[..|cs| - 1], cs[|cs| - 1];
      if c.NotNullTest? then
        match Bind(init, ps)
        case None => None
        case Some(conds) => Some(conds + [NotNull(c.column)])
      else
        match Bind(init, ps[..|ps| - 1])
        case None => None
        case Some(conds) =>
          if ps[|ps| - 1].TupleParam? then None
          else Some(conds + [BindOne(c, ps[|ps| - 1].v)])
  }

  /** Every column a clause names is one of `schema`, the columns of the
      listings table, so the statement compiles. */
  predicate Resolves(cs: seq<Clause>, schema: seq<string>) {
    forall k :: 0 <= k < |cs| ==> cs[k].column in schema
  }

  /** The rows the filtered query returns: those of the table, in its order,
      whose address is not blacklisted and which satisfy every condition. A
      column that does not resolve or a parameter that cannot be bound is an
      error, which the caller catches and returns as an empty result. */
  function Execute(rows: seq<Row>, blacklist: seq<BlacklistEntry>, cs: seq<Clause>, ps: seq<Param>)
    : (r: seq<Row>)
    requires |ps| == Placeholders(cs)
    ensures forall x :: x in r ==> x in rows && !Blacklisted(x, blacklist)
  {
    if !Resolves(cs, ListingColumns) then []
    else
      match Bind(cs, ps)
      case None => []
      case Some(conds) => Select(rows, (x: Row) => !Blacklisted(x, blacklist) && AllHold(x, conds))
  }

  /** `get_filtered_listings`: the IndexError of an empty tuple, or the rows
      the query returns. */
  function FilteredRows(rows: seq<Row>, blacklist: seq<BlacklistEntry>, fs: seq<Filter>)
    : (r: Result<seq<Row>, BuildError>)
    ensures r.Failure? <==> exists i :: EmptyTupleAt(fs, i)
    ensures r.Success? ==> forall x :: x in r.value ==> x in rows && !Blacklisted(x, blacklist)
  {
    match BuildSpec(fs)
    case Failure(e) => Failure(e)
    case Success((cs, ps)) => Success(Execute(rows, blacklist, cs, ps))
  }

  // ---------------------------------------------------------------------
  // The filters' own meaning
  // ---------------------------------------------------------------------

  /** The range with neither bound: it adds no condition at all. */
  const NoBounds: FilterValue := Tuple([SqlNull, SqlNull])

  /** A value the builder passes on as a tuple parameter. */
  predicate Unbindable(v: FilterValue) {
    v.Tuple? && |v.items| != 2 && !(|v.items| > 0 && v.items[0] == SqlText(NotNullSentinel))
  }

  /** What a filter asks of a row, read off the filter: each present bound
      of a range holds, the sentinel asks for a value, a scalar for an equal
      value. A comparison with NULL never holds. */
  predicate MatchesFilter(r: Row, f: Filter) {
    var x := ValueOf(r, f.0);
    match f.1
    case Scalar(y) => Equal(x, y)
    case Tuple(items) =>
      if |items| == 2 then
        (items[0] == SqlNull || AtLeast(x, items[0])) && (items[1] == SqlNull || AtMost(x, items[1]))
      else if |items| > 0 && items[0] == SqlText(NotNullSentinel) then !x.SqlNull?
      else false
  }

  predicate MatchesAll(r: Row, fs: seq<Filter>) {
    forall i :: 0 <= i < |fs| ==> MatchesFilter(r, fs[i])
  }

  /** The query runs: every filter that adds a condition names a listings
      column, and no filter value is passed on as a tuple. */
  predicate Executable(fs: seq<Filter>) {
    forall i :: 0 <= i < |fs| ==>
      !Unbindable(fs[i].1) && (fs[i].1 != NoBounds ==> fs[i].0 in ListingColumns)
  }

  /** The filtered query returns exactly the rows, in table order, that
      satisfy every filter and whose address no blacklist entry matches
      case-insensitively, whatever the filters are; when the query cannot
      run the result is empty, as if nothing matched. */
  lemma FilteredRowsMeaning(rows: seq<Row>, blacklist: seq<BlacklistEntry>, fs: seq<Filter>)
    requires forall i :: !EmptyTupleAt(fs, i)
    ensures Executable(fs) ==> (FilteredRows(rows, blacklist, fs)
      == Success(Select(rows, (x: Row) => !Blacklisted(x, blacklist) && MatchesAll(x, fs))))
    ensures !Executable(fs) ==> FilteredRows(rows, blacklist, fs) == Success([])
  {
    var cs, ps := BuildSpec(fs).value.0, BuildSpec(fs).value.1;
    SpecResolves(fs, ListingColumns);
    SpecBinds(fs);
    if Executable(fs) {
      var conds := Bind(cs, ps).value;
      forall x: Row ensures AllHold(x, conds) <==> MatchesAll(x, fs) {
        SpecConditions(fs, x);
      }
      SelectExtensional(rows, (x: Row) => !Blacklisted(x, blacklist) && AllHold(x, conds),
                              (x: Row) => !Blacklisted(x, blacklist) && MatchesAll(x, fs));
    }
  }

  /** The clauses resolve when every filter that constrains names a
      listings column. */
  lemma {:induction false} SpecResolves(fs: seq<Filter>, schema: seq<string>)
    requires BuildSpec(fs).Success?
    ensures Resolves(BuildSpec(fs).value.0, schema) <==>
      forall i :: 0 <= i < |fs| && fs[i].1 != NoBounds ==> fs[i].0 in schema
  {
    if fs != [] {
      var n := |fs| - 1;
      var init, col, v := fs[..n], fs[n].0, fs[n].1;
      BuildSpecStep(fs);
      SpecResolves(init, schema);
      var cs0, cs1 := BuildSpec(init).value.0, ClausesFor(col, v);
      FilterResolves(col, v, schema);
      ResolvesAppend(cs0, cs1, schema);
      ColumnsKnownLast(fs, init, schema);
    }
  }

  /** The parameters bind when no filter value is unbindable. */
  lemma {:induction false} SpecBinds(fs: seq<Filter>)
    requires BuildSpec(fs).Success?
    ensures Bind(BuildSpec(fs).value.0, BuildSpec(fs).value.1).None? <==>
      exists i :: 0 <= i < |fs| && Unbindable(fs[i].1)
  {
    if fs != [] {
      var n := |fs| - 1;
      var init, col, v := fs[..n], fs[n].0, fs[n].1;
      BuildSpecStep(fs);
      SpecBinds(init);
      FilterBinds(col, v);
      var cs0, ps0 := BuildSpec(init).value.0, BuildSpec(init).value.1;
      BindAppend(cs0, ps0, ClausesFor(col, v), ParamsFor(v));
      UnbindableLast(fs, init);
    }
  }

  lemma ColumnsKnownLast(fs: seq<Filter>, init: seq<Filter>, schema: seq<string>)
    requires fs != [] && init == fs[..|fs| - 1]
    ensures (forall i :: 0 <= i < |fs| && fs[i].1 != NoBounds ==> fs[i].0 in schema) <==>
            (forall i :: 0 <= i < |init| && init[i].1 != NoBounds ==> init[i].0 in schema)
            && (fs[|fs| - 1].1 != NoBounds ==> fs[|fs| - 1].0 in schema)
  {
    assert forall i :: 0 <= i < |init| ==> init[i] == fs[i];
  }

  lemma UnbindableLast(fs: seq<Filter>, init: seq<Filter>)
    requires fs != [] && init == fs[..|fs| - 1]
    ensures (exists i :: 0 <= i < |fs| && Unbindable(fs[i].1)) <==>
            (exists i :: 0 <= i < |init| && Unbindable(init[i].1)) || Unbindable(fs[|fs| - 1].1)
  {
    if exists i :: 0 <= i < |fs| && Unbindable(fs[i].1) {
      var i :| 0 <= i < |fs| && Unbindable(fs[i].1);
      if i < |fs| - 1 {
        assert init[i] == fs[i];
      }
    }
    if exists i :: 0 <= i < |fs| - 1 && Unbindable(init[i].1) {
      var i :| 0 <= i < |fs| - 1 && Unbindable(init[i].1);
      assert init[i] == fs[i];
    }
  }

  /** The bound conditions hold of a row exactly when it matches every
      filter. */
  lemma {:induction false} SpecConditions(fs: seq<Filter>, r: Row)
    requires BuildSpec(fs).Success?
    requires Bind(BuildSpec(fs).value.0, BuildSpec(fs).value.1).Some?
    ensures AllHold(r, Bind(BuildSpec(fs).value.0, BuildSpec(fs).value.1).value) <==> MatchesAll(r, fs)
  {
    if fs != [] {
      var n := |fs| - 1;
      var init, col, v := fs[..n], fs[n].0, fs[n].1;
      BuildSpecStep(fs);
      var cs0, ps0 := BuildSpec(init).value.0, BuildSpec(init).value.1;
      var cs1, ps1 := ClausesFor(col, v), ParamsFor(v);
      FilterMeaning(col, v);
      BindAppend(cs0, ps0, cs1, ps1);
      SpecConditions(init, r);
      var a, b := Bind(cs0, ps0).value, Bind(cs1, ps1).value;
      AllHoldAppend(r, a, b);
      assert AllHold(r, b) <==> MatchesFilter(r, (col, v));
      MatchesAllLast(r, fs);
    }
  }

  lemma MatchesAllLast(r: Row, fs: seq<Filter>)
    requires fs != []
    ensures MatchesAll(r, fs) <==> MatchesAll(r, fs[..|fs| - 1]) && MatchesFilter(r, fs[|fs| - 1])
  {
    assert forall i :: 0 <= i < |fs| - 1 ==> fs[..|fs| - 1][i] == fs[i];
  }

  /** The last filter of a list that builds adds its own clauses and
      parameters to those of the others. */
  lemma BuildSpecStep(fs: seq<Filter>)
    requires fs != [] && BuildSpec(fs).Success?
    ensures var init, (col, v) := fs[..|fs| - 1], fs[|fs| - 1];
      && v != Tuple([])
      && BuildSpec(init).Success?
      && BuildSpec(fs).value == (BuildSpec(init).value.0 + ClausesFor(col, v), BuildSpec(init).value.1 + ParamsFor(v))
  {
  }

  /** One filter's clauses and parameters, read back. */
  lemma FilterMeaning(col: string, v: FilterValue)
    requires v != Tuple([])
    ensures |ParamsFor(v)| == Placeholders(ClausesFor(col, v))
    ensures Bind(ClausesFor(col, v), ParamsFor(v)).None? <==> Unbindable(v)
    ensures Bind(ClausesFor(col, v), ParamsFor(v)).Some? ==>
      forall r :: AllHold(r, Bind(ClausesFor(col, v), ParamsFor(v)).value) <==> MatchesFilter(r, (col, v))
  {
    ParamsForPlaceholders(col, v);
    if v.Tuple? && |v.items| == 2 {
      RangeFilterMeaning(col, v);
    } else {
      SingleClauseMeaning(col, v);
    }
  }

  /** A range filter read back through the range it spells out. */
  lemma RangeFilterMeaning(col: string, v: FilterValue)
    requires v.Tuple? && |v.items| == 2
    ensures !Unbindable(v)
    ensures Bind(ClausesFor(col, v), ParamsFor(v)).Some?
    ensures forall r :: AllHold(r, Bind(ClausesFor(col, v), ParamsFor(v)).value) <==> MatchesFilter(r, (col, v))
  {
    RangeMeaning(col, v.items[0], v.items[1]);
    assert v == Tuple([v.items[0], v.items[1]]);
  }

  /** A filter adds no clause exactly when it is the range with neither
      bound. */
  lemma FilterEmpty(col: string, v: FilterValue)
    requires v != Tuple([])
    ensures ClausesFor(col, v) == [] <==> v == NoBounds
  {
    if v.Tuple? && |v.items| == 2 {
      assert v == Tuple([v.items[0], v.items[1]]);
    }
  }

  /** One filter's clauses resolve when its column is in the schema or it
      adds no clause. */
  lemma FilterResolves(col: string, v: FilterValue, schema: seq<string>)
    requires v != Tuple([])
    ensures Resolves(ClausesFor(col, v), schema) <==> v == NoBounds || col in schema
  {
    FilterEmpty(col, v);
    ClausesForColumn(col, v);
    var cs := ClausesFor(col, v);
    if cs != [] {
      assert cs[0] in cs;
    }
  }

  /** One filter's parameters bind unless its value is unbindable. */
  lemma FilterBinds(col: string, v: FilterValue)
    requires v != Tuple([])
    ensures |ParamsFor(v)| == Placeholders(ClausesFor(col, v))
    ensures Bind(ClausesFor(col, v), ParamsFor(v)).None? <==> Unbindable(v)
  {
    FilterMeaning(col, v);
  }

  lemma RangeMeaning(col: string, lo: SqlValue, hi: SqlValue)
    ensures var v := Tuple([lo, hi]);
      && (ClausesFor(col, v) == [] <==> v == NoBounds)
      && Bind(ClausesFor(col, v), ParamsFor(v)) == Some(RangeConds(col, lo, hi))
      && forall r :: AllHold(r, RangeConds(col, lo, hi)) <==> MatchesFilter(r, (col, v))
  {
    RangeBinds(col, lo, hi);
    forall r ensures AllHold(r, RangeConds(col, lo, hi)) <==> MatchesFilter(r, (col, Tuple([lo, hi]))) {
      RangeCondsHold(r, col, lo, hi);
    }
  }

  /** A filter other than a range adds one clause. */
  lemma SingleClauseMeaning(col: string, v: FilterValue)
    requires v != Tuple([]) && !(v.Tuple? && |v.items| == 2)
    ensures ClausesFor(col, v) != [] && v != NoBounds
    ensures |ParamsFor(v)| == Placeholders(ClausesFor(col, v))
    ensures Bind(ClausesFor(col, v), ParamsFor(v)).None? <==> Unbindable(v)
    ensures Bind(ClausesFor(col, v), ParamsFor(v)).Some? ==>
      forall r :: AllHold(r, Bind(ClausesFor(col, v), ParamsFor(v)).value) <==> MatchesFilter(r, (col, v))
  {
    ParamsForPlaceholders(col, v);
    var cs, ps := ClausesFor(col, v), ParamsFor(v);
    assert cs == [cs[0]];
    BindSingle(cs[0], ps);
    if Bind(cs, ps).Some? {
      var c := Bind(cs, ps).value[0];
      assert Bind(cs, ps).value == [c];
      forall r ensures AllHold(r, [c]) <==> MatchesFilter(r, (col, v)) {
        assert AllHold(r, [c]) <==> Holds(r, c);
      }
    }
  }

  /** The conditions a range binds to: a lower bound, then an upper bound,
      each only when present. */
  function RangeConds(col: string, lo: SqlValue, hi: SqlValue): seq<Cond> {
    (if lo != SqlNull then [Ge(col, lo)] else []) + (if hi != SqlNull then [Le(col, hi)] else [])
  }

  lemma RangeBinds(col: string, lo: SqlValue, hi: SqlValue)
    ensures var v := Tuple([lo, hi]);
      && (ClausesFor(col, v) == [] <==> v == NoBounds)
      && Bind(ClausesFor(col, v), ParamsFor(v)) == Some(RangeConds(col, lo, hi))
  {
    var v := Tuple([lo, hi]);
    var cl, pl := if lo != SqlNull then [AtLeastParam(col)] else [], if lo != SqlNull then [Value(lo)] else [];
    var ch, ph := if hi != SqlNull then [AtMostParam(col)] else [], if hi != SqlNull then [Value(hi)] else [];
    assert ClausesFor(col, v) == cl + ch && ParamsFor(v) == pl + ph;
    BindAppend(cl, pl, ch, ph);
    if lo != SqlNull {
      BindSingle(AtLeastParam(col), pl);
    }
    if hi != SqlNull {
      BindSingle(AtMostParam(col), ph);
    }
  }

  lemma RangeCondsHold(r: Row, col: string, lo: SqlValue, hi: SqlValue)
    ensures AllHold(r, RangeConds(col, lo, hi)) <==>
      (lo == SqlNull || AtLeast(ValueOf(r, col), lo)) && (hi == SqlNull || AtMost(ValueOf(r, col), hi))
  {
    var a := if lo != SqlNull then [Ge(col, lo)] else [];
    var b := if hi != SqlNull then [Le(col, hi)] else [];
    AllHoldAppend(r, a, b);
    if lo != SqlNull {
      assert AllHold(r, a) <==> Holds(r, a[0]);
    }
    if hi != SqlNull {
      assert AllHold(r, b) <==> Holds(r, b[0]);
    }
  }

  /** Binding a single clause. */
  lemma BindSingle(c: Clause, ps: seq<Param>)
    requires |ps| == Placeholders([c])
    ensures Bind([c], ps) ==
      if c.NotNullTest? then Some([NotNull(c.column)])
      else if ps[0].TupleParam? then None
      else Some([BindOne(c, ps[0].v)])
  {
    var none: seq<Clause> := [];
    assert [c][..0] == none;
    assert Placeholders(none) == 0;
    if c.NotNullTest? {
      assert Bind(none, ps) == Some([]);
      assert [] + [NotNull(c.column)] == [NotNull(c.column)];
    } else {
      assert |ps| == 1;
      assert Bind(none, ps[..0]) == Some([]);
      if !ps[0].TupleParam? {
        assert [] + [BindOne(c, ps[0].v)] == [BindOne(c, ps[0].v)];
      }
    }
  }

  // ---------------------------------------------------------------------
  // Helpers
  // ---------------------------------------------------------------------

  lemma ResolvesAppend(a: seq<Clause>, b: seq<Clause>, schema: seq<string>)
    ensures Resolves(a + b, schema) <==> Resolves(a, schema) && Resolves(b, schema)
  {
    if Resolves(a, schema) && Resolves(b, schema) {
      forall k | 0 <= k < |a + b| ensures (a + b)[k].column in schema {
        if k >= |a| {
          assert (a + b)[k] == b[k - |a|];
        }
      }
    }
    if Resolves(a + b, schema) {
      forall k | 0 <= k < |a| ensures a[k].column in schema {
        assert (a + b)[k] == a[k];
      }
      forall k | 0 <= k < |b| ensures b[k].column in schema {
        assert (a + b)[|a| + k] == b[k];
      }
    }
  }

  lemma AllHoldAppend(r: Row, a: seq<Cond>, b: seq<Cond>)
    ensures AllHold(r, a + b) <==> AllHold(r, a) && AllHold(r, b)
  {
    if AllHold(r, a) && AllHold(r, b) {
      forall k | 0 <= k < |a + b| ensures Holds(r, (a + b)[k]) {
        if k >= |a| {
          assert (a + b)[k] == b[k - |a|];
        }
      }
    }
    if AllHold(r, a + b) {
      forall k | 0 <= k < |a| ensures Holds(r, a[k]) {
        assert (a + b)[k] == a[k];
      }
      forall k | 0 <= k < |b| ensures Holds(r, b[k]) {
        assert (a + b)[|a| + k] == b[k];
      }
    }
  }

  /** Binding two runs of clauses one after the other binds each run. */
  lemma {:induction false} BindAppend(cs: seq<Clause>, ps: seq<Param>, ds: seq<Clause>, qs: seq<Param>)
    requires |ps| == Placeholders(cs) && |qs| == Placeholders(ds)
    ensures Placeholders(cs + ds) == |ps + qs|
    ensures Bind(cs + ds, ps + qs) ==
      if Bind(cs, ps).None? || Bind(ds, qs).None? then None
      else Some(Bind(cs, ps).value + Bind(ds, qs).value)
    decreases |ds|
  {
    PlaceholdersAppend(cs, ds);
    if ds == [] {
      assert cs + ds == cs;
      assert qs == [];
      assert ps + qs == ps;
      assert Bind(ds, qs) == Some([]);
      if Bind(cs, ps).Some? {
        assert Bind(cs, ps).value + [] == Bind(cs, ps).value;
      }
    } else {
      var init, d := ds[..|ds| - 1], ds[|ds| - 1];
      assert (cs + ds)[..|cs + ds| - 1] == cs + init;
      assert (cs + ds)[|cs + ds| - 1] == d;
      if d.NotNullTest? {
        assert Placeholders(ds) == Placeholders(init);
        BindAppend(cs, ps, init, qs);
        assert Bind(ds, qs) == match Bind(init, qs)
          case None => None
          case Some(conds) => Some(conds + [NotNull(d.column)]);
        assert Bind(cs + ds, ps + qs) == match Bind(cs + init, ps + qs)
          case None => None
          case Some(conds) => Some(conds + [NotNull(d.column)]);
        if Bind(cs, ps).Some? && Bind(init, qs).Some? {
          var a, b := Bind(cs, ps).value, Bind(init, qs).value;
          assert (a + b) + [NotNull(d.column)] == a + (b + [NotNull(d.column)]);
        }
      } else {
        var qs0 := qs[..|qs| - 1];
        assert (ps + qs)[..|ps + qs| - 1] == ps + qs0;
        assert (ps + qs)[|ps + qs| - 1] == qs[|qs| - 1];
        BindAppend(cs, ps, init, qs0);
        if Bind(cs, ps).Some? && Bind(init, qs0).Some? && !qs[|qs| - 1].TupleParam? {
          var a, b, x := Bind(cs, ps).value, Bind(init, qs0).value, BindOne(d, qs[|qs| - 1].v);
          assert (a + b) + [x] == a + (b + [x]);
        }
      }
    }
  }
}
