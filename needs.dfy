/** The two read-only queries of `utils/data_processing.py` over a frame:
    `get_properties_needing_enrichment` and `get_top_properties_by_yield`. */
module Analysis {
  import opened Wrappers
  import opened Listings
  import opened Collections

  // ---------------------------------------------------------------------
  // get_properties_needing_enrichment
  // ---------------------------------------------------------------------

  /** The six lists of rows still missing some enrichment. */
  datatype Needs = Needs(
    walkscoreMissing: seq<Listing>,
    transitMissing: seq<Listing>,
    bikeMissing: seq<Listing>,
    mlsMissing: seq<Listing>,
    taxMissing: seq<Listing>,
    cashflowMissing: seq<Listing>)

  /** The columns the query indexes unconditionally, in the order it reads
      them; the first one the frame lacks raises KeyError. */
  const RequiredColumns: seq<Column> :=
    [WalkScore, TransitScore, BikeScore, MlsNumber, MlsType, TaxInformation]

  predicate WalkScoreMissing(r: Listing) { IsNull(r, WalkScore) }
  predicate TransitMissing(r: Listing) { IsNull(r, TransitScore) }
  predicate BikeMissing(r: Listing) { IsNull(r, BikeScore) }
  predicate MlsMissing(r: Listing) { IsNull(r, MlsNumber) || IsNull(r, MlsType) }
  predicate TaxMissing(r: Listing) { IsNull(r, TaxInformation) }
  predicate CashflowMissing(r: Listing) { IsNull(r, MonthlyCashflow) }

  /** The first required column the frame lacks, if any. */
  function FirstMissing(cols: set<Column>, from: nat): (r: Option<nat>)
    requires from <= |RequiredColumns|
    ensures r.Some? ==> from <= r.value < |RequiredColumns| && RequiredColumns[r.value] !in cols
    ensures r.Some? ==> forall j :: from <= j < r.value ==> RequiredColumns[j] in cols
    ensures r.None? ==> forall j :: from <= j < |RequiredColumns| ==> RequiredColumns[j] in cols
    decreases |RequiredColumns| - from
  {
    if from == |RequiredColumns| then None
    else if RequiredColumns[from] !in cols then Some(from)
    else FirstMissing(cols, from + 1)
  }

  /** `get_properties_needing_enrichment(df)`; `Failure(c)` is the KeyError
      for column `c`. When the frame has no cashflow column every row is
      listed as missing it. */
  function PropertiesNeedingEnrichment(t: Table): (r: Result<Needs, Column>)
    ensures r.Failure? <==> exists c :: c in RequiredColumns && c !in t.columns
    ensures r.Failure? ==> r.error in RequiredColumns && r.error !in t.columns
  {
    match FirstMissing(t.columns, 0)
    case Some(k) => Failure(RequiredColumns[k])
    case None =>
      Success(Needs(
        Select(t.rows, WalkScoreMissing),
        Select(t.rows, TransitMissing),
        Select(t.rows, BikeMissing),
        Select(t.rows, MlsMissing),
        Select(t.rows, TaxMissing),
        if MonthlyCashflow in t.columns then Select(t.rows, CashflowMissing) else t.rows))
  }

  /** The score lists hold exactly the rows of the frame that miss that
      score, in frame order, each as often as in the frame. */
  lemma ScoreListsAreSelections(t: Table)
    requires PropertiesNeedingEnrichment(t).Success?
    ensures var n := PropertiesNeedingEnrichment(t).value;
      && IsSubsequence(n.walkscoreMissing, t.rows)
      && IsSubsequence(n.transitMissing, t.rows)
      && IsSubsequence(n.bikeMissing, t.rows)
      && (forall x :: multiset(n.walkscoreMissing)[x] == if WalkScoreMissing(x) then multiset(t.rows)[x] else 0)
      && (forall x :: multiset(n.transitMissing)[x] == if TransitMissing(x) then multiset(t.rows)[x] else 0)
      && (forall x :: multiset(n.bikeMissing)[x] == if BikeMissing(x) then multiset(t.rows)[x] else 0)
  {
    assert FirstMissing(t.columns, 0).None?;
    SelectIsSubsequence(t.rows, WalkScoreMissing);
    SelectIsSubsequence(t.rows, TransitMissing);
    SelectIsSubsequence(t.rows, BikeMissing);
  }

  /** The MLS list holds the rows missing their MLS number or their MLS
      type, in frame order and each as often as in the frame: a row missing
      both is listed once. */
  lemma MlsListIsSelection(t: Table)
    requires PropertiesNeedingEnrichment(t).Success?
    ensures var n := PropertiesNeedingEnrichment(t).value;
      && IsSubsequence(n.mlsMissing, t.rows)
      && forall x :: multiset(n.mlsMissing)[x] ==
           if MlsMissing(x) then multiset(t.rows)[x] else 0
  {
    assert FirstMissing(t.columns, 0).None?;
    SelectIsSubsequence(t.rows, MlsMissing);
  }

  /** The tax and cashflow lists are selections of the frame in frame order;
      the tax list holds exactly the rows with no tax information. */
  lemma TaxAndCashflowListsAreSelections(t: Table)
    requires PropertiesNeedingEnrichment(t).Success?
    ensures var n := PropertiesNeedingEnrichment(t).value;
      && IsSubsequence(n.taxMissing, t.rows)
      && IsSubsequence(n.cashflowMissing, t.rows)
      && forall x :: multiset(n.taxMissing)[x] == if TaxMissing(x) then multiset(t.rows)[x] else 0
  {
    assert FirstMissing(t.columns, 0).None?;
    SelectIsSubsequence(t.rows, TaxMissing);
    if MonthlyCashflow in t.columns {
      SelectIsSubsequence(t.rows, CashflowMissing);
    } else {
      SubsequenceRefl(t.rows);
    }
  }

  /** On a well-formed frame the cashflow list is the rows missing a
      cashflow whether or not the column exists: without the column every
      row misses it, so the copy and the selection agree. */
  lemma CashflowListUniform(t: Table)
    requires t.Valid() && PropertiesNeedingEnrichment(t).Success?
    ensures PropertiesNeedingEnrichment(t).value.cashflowMissing == Select(t.rows, CashflowMissing)
  {
    if MonthlyCashflow !in t.columns {
      SelectAll(t.rows, CashflowMissing);
    }
  }

  lemma {:induction false} SubsequenceRefl<T>(s: seq<T>)
    ensures IsSubsequence(s, s)
  {
    if s != [] {
      SubsequenceRefl(s[1..]);
    }
  }

  /** The KeyError names the first required column, in the query's order,
      that the frame lacks. */
  lemma NeedsErrorIsFirst(t: Table, j: nat)
    requires PropertiesNeedingEnrichment(t).Failure?
    requires j < |RequiredColumns| && RequiredColumns[j] == PropertiesNeedingEnrichment(t).error
    ensures forall i :: 0 <= i < j ==> RequiredColumns[i] in t.columns
  {
    var k := FirstMissing(t.columns, 0).value;
    assert RequiredColumns[k] == RequiredColumns[j];
    assert j == k;
  }

  // ---------------------------------------------------------------------
  // get_top_properties_by_yield
  // ---------------------------------------------------------------------

  /** `sort_values('rent_yield', ascending=False)`: higher yield first, and
      a missing yield after every present one. */
  predicate YieldBefore(a: Listing, b: Listing) {
    match (a.rentYield, b.rentYield)
    case (Some(x), Some(y)) => x >= y
    case (Some(_), None) => true
    case (None, None) => true
    case (None, Some(_)) => false
  }

  lemma YieldBeforeIsPreorder()
    ensures TotalPreorder(YieldBefore)
  {
  }

  /** `get_top_properties_by_yield(df, n)`: an empty frame when there is no
      yield column, else the first `n` rows by descending yield (pandas'
      `head(n)`, so a negative `n` drops the last `-n`). */
  function TopPropertiesByYield(t: Table, n: int): (r: Table)
    ensures RentYield !in t.columns ==> r == Table({}, [])
    ensures RentYield in t.columns ==> r.columns == t.columns && |r.rows| == HeadCount(|t.rows|, n)
  {
    if RentYield !in t.columns then Table({}, [])
    else Table(t.columns, Head(SortBy(t.rows, YieldBefore), n))
  }

  /** The rows returned are rows of the frame, in descending order of yield,
      and none of the rows left out has a higher yield than any row
      returned. */
  lemma {:induction false} TopPropertiesAreTop(t: Table, n: int)
    requires RentYield in t.columns
    ensures var top := TopPropertiesByYield(t, n).rows;
      && SortedBy(top, YieldBefore)
      && multiset(top) <= multiset(t.rows)
      && forall x, y :: x in top && multiset(top)[y] < multiset(t.rows)[y] ==> YieldBefore(x, y)
  {
    var s := SortBy(t.rows, YieldBefore);
    YieldBeforeIsPreorder();
    SortBySorts(t.rows, YieldBefore);
    HeadOfSortedIsTop(s, HeadCount(|t.rows|, n), YieldBefore);
  }
}
