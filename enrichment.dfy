/** `utils/data_processing.py`, the part that changes a data frame in place:
    `enrich_dataframe`, `calculate_price_per_sqft`, `calculate_rent_yield`
    and the three categorizers. Each masked column assignment
    `df.loc[mask, col] = ...` is one step function applied to every row;
    `Frame` holds the frame and applies the steps to its array of rows. */
module Enrichment {
  import opened Wrappers
  import opened Listings

  /** The "0.8% rule": monthly rent estimated as this fraction of the price. */
  const RentRule: real := 0.008

  /** The derived columns `enrich_dataframe` creates, all missing, when the
      frame lacks them. */
  const AddedColumns: set<Column> := {EstimatedRent, PricePerSqft, MonthlyCashflow}

  /** The numeric value of a cell, if it has one. */
  function AsNumber(c: Cell): Option<real> {
    if c.Num? then Some(c.v) else None
  }

  // ---------------------------------------------------------------------
  // enrich_dataframe, one row at a time
  // ---------------------------------------------------------------------

  /** `pd.to_numeric(df[col], errors='coerce')` for each numeric column in
      `cols`; the other cells are left alone. */
  function CoerceColumns(r: Listing, cols: set<Column>): Listing {
    r.(price := if Price in cols then Coerce(r.price) else r.price,
       sqft := if Sqft in cols then Coerce(r.sqft) else r.sqft,
       beds := if Beds in cols then Coerce(r.beds) else r.beds,
       baths := if Baths in cols then Coerce(r.baths) else r.baths,
       yearBuilt := if YearBuilt in cols then Coerce(r.yearBuilt) else r.yearBuilt,
       estimatedRent := if EstimatedRent in cols then Coerce(r.estimatedRent) else r.estimatedRent,
       pricePerSqft := if PricePerSqft in cols then Coerce(r.pricePerSqft) else r.pricePerSqft,
       walkScore := if WalkScore in cols then Coerce(r.walkScore) else r.walkScore,
       transitScore := if TransitScore in cols then Coerce(r.transitScore) else r.transitScore,
       bikeScore := if BikeScore in cols then Coerce(r.bikeScore) else r.bikeScore,
       monthlyCashflow := if MonthlyCashflow in cols then Coerce(r.monthlyCashflow) else r.monthlyCashflow)
  }

  /** Mask `price.notna() & sqft.notna() & sqft > 0`: price per square foot. */
  function PricePerSqftStep(r: Listing): Listing {
    if r.price.Num? && r.sqft.Num? && r.sqft.v > 0.0
    then r.(pricePerSqft := Num(r.price.v / r.sqft.v))
    else r
  }

  /** Mask `estimated_rent.isna() & price.notna() & price > 0`: the 0.8% rule. */
  function RentFillStep(r: Listing): Listing {
    if r.estimatedRent.Null? && r.price.Num? && r.price.v > 0.0
    then r.(estimatedRent := Num(r.price.v * RentRule))
    else r
  }

  /** Mask `estimated_rent.notna() & price.notna() & price > 0`: annual gross
      yield. */
  function RentYieldStep(r: Listing): Listing {
    if r.estimatedRent.Num? && r.price.Num? && r.price.v > 0.0
    then r.(rentYield := Some(r.estimatedRent.v * 12.0 / r.price.v))
    else r
  }

  /** The three masked assignments of `enrich_dataframe`, in order, on a row
      already coerced; which of them run depends on the frame's columns. */
  function Steps(c: Listing, cols: set<Column>): Listing {
    var withPps := if Price in cols && Sqft in cols then PricePerSqftStep(c) else c;
    var withRent := if Price in cols then RentFillStep(withPps) else withPps;
    if Price in cols then RentYieldStep(withRent) else withRent
  }

  /** What `enrich_dataframe` does to one row of a frame with columns `cols`. */
  function EnrichRow(r: Listing, cols: set<Column>): Listing {
    Steps(CoerceColumns(r, cols), cols)
  }

  /** The columns of the frame `enrich_dataframe` returns. */
  function EnrichedColumns(cols: set<Column>): set<Column> {
    cols + AddedColumns + (if Price in cols then {RentYield} else {})
  }

  function EnrichRows(rows: seq<Listing>, cols: set<Column>): seq<Listing> {
    seq(|rows|, i requires 0 <= i < |rows| => EnrichRow(rows[i], cols))
  }

  /** `enrich_dataframe` on a frame value. */
  function EnrichTable(t: Table): Table {
    Table(EnrichedColumns(t.columns), EnrichRows(t.rows, t.columns))
  }

  /** The guards and formulas of `enrich_dataframe`, row by row, stated over
      the row after coercion (`c`):
      - `price_per_sqft` is `price / sqft` exactly when both are numbers and
        sqft is positive (price may be zero or negative); otherwise it keeps
        its value;
      - a numeric `estimated_rent` is never changed; a missing one becomes
        `price * 0.008` when the price is positive;
      - `rent_yield` is `rent * 12 / price` when the rent ends up a number and
        the price is positive; otherwise it keeps its value;
      - every other column keeps its (coerced) value. */
  lemma EnrichRowFacts(r: Listing, cols: set<Column>)
    ensures var c, e := CoerceColumns(r, cols), EnrichRow(r, cols);
      && (if Price in cols && Sqft in cols && c.price.Num? && c.sqft.Num? && c.sqft.v > 0.0
          then e.pricePerSqft == Num(c.price.v / c.sqft.v)
          else e.pricePerSqft == c.pricePerSqft)
      && (c.estimatedRent.Num? ==> e.estimatedRent == c.estimatedRent)
      && (if Price in cols && c.estimatedRent.Null? && c.price.Num? && c.price.v > 0.0
          then e.estimatedRent == Num(c.price.v * 0.008)
          else e.estimatedRent == c.estimatedRent)
      && (if Price in cols && e.estimatedRent.Num? && c.price.Num? && c.price.v > 0.0
          then e.rentYield == Some(e.estimatedRent.v * 12.0 / c.price.v)
          else e.rentYield == r.rentYield)
      && e.(pricePerSqft := c.pricePerSqft, estimatedRent := c.estimatedRent, rentYield := r.rentYield) == c
  {
  }

  /** Coercion leaves no text in a numeric column of the frame, keeps every
      number, and is idempotent. */
  lemma CoerceColumnsFacts(r: Listing, cols: set<Column>, c: Column)
    requires IsNumeric(c) && c in cols
    ensures !NumericCell(CoerceColumns(r, cols), c).Str?
    ensures NumericCell(r, c).Num? ==> NumericCell(CoerceColumns(r, cols), c) == NumericCell(r, c)
    ensures CoerceColumns(CoerceColumns(r, cols), cols) == CoerceColumns(r, cols)
  {
  }

  /** Coercion and the three steps leave a missing value missing in every
      column they do not write. */
  lemma StepsKeepConformity(r: Listing, cols: set<Column>, s: set<Column>)
    requires Conforms(r, cols)
    ensures Conforms(CoerceColumns(r, s), cols)
    ensures PricePerSqft in cols ==> Conforms(PricePerSqftStep(r), cols)
    ensures EstimatedRent in cols ==> Conforms(RentFillStep(r), cols)
    ensures RentYield in cols ==> Conforms(RentYieldStep(r), cols)
  {
    forall c | c !in cols ensures IsNull(CoerceColumns(r, s), c) {
      assert IsNull(r, c);
    }
  }

  /** The frame `enrich_dataframe` returns has the same number of rows, and
      each of them fits its columns. */
  lemma {:induction false} EnrichTableValid(t: Table)
    requires t.Valid()
    ensures EnrichTable(t).Valid()
    ensures |EnrichTable(t).rows| == |t.rows|
  {
    var cols := t.columns;
    var cols' := EnrichedColumns(cols);
    forall i | 0 <= i < |t.rows| ensures Conforms(EnrichTable(t).rows[i], cols') {
      var r := t.rows[i];
      StepsKeepConformity(r, cols, cols);
      var c := CoerceColumns(r, cols);
      assert Conforms(c, cols');
      StepsKeepConformity(c, cols', cols);
      var p := if Price in cols && Sqft in cols then PricePerSqftStep(c) else c;
      StepsKeepConformity(p, cols', cols);
      var e := if Price in cols then RentFillStep(p) else p;
      StepsKeepConformity(e, cols', cols);
      if Price !in cols {
        assert EnrichRow(r, cols) == e;
      }
    }
  }

  /** No numeric cell of the row holds text. */
  predicate NoTextCells(r: Listing) {
    && !r.price.Str? && !r.sqft.Str? && !r.beds.Str? && !r.baths.Str?
    && !r.yearBuilt.Str? && !r.estimatedRent.Str? && !r.pricePerSqft.Str?
    && !r.walkScore.Str? && !r.transitScore.Str? && !r.bikeScore.Str?
    && !r.monthlyCashflow.Str?
  }

  /** Coercion changes nothing in a row without text. */
  lemma CoerceNoText(r: Listing, cols: set<Column>)
    requires NoTextCells(r)
    ensures CoerceColumns(r, cols) == r
  {
  }

  /** After enrichment no numeric cell of a conforming row holds text: the
      frame's numeric columns were coerced and the others are missing. */
  lemma EnrichRowNoText(r: Listing, cols: set<Column>)
    requires Conforms(r, cols)
    ensures NoTextCells(EnrichRow(r, cols))
  {
    CoercedNoText(r, cols);
    StepsKeepNoText(CoerceColumns(r, cols), cols);
  }

  /** The three steps only ever write numbers. */
  lemma StepsKeepNoText(c: Listing, cols: set<Column>)
    requires NoTextCells(c)
    ensures NoTextCells(Steps(c, cols))
  {
    var withPps := if Price in cols && Sqft in cols then PricePerSqftStep(c) else c;
    assert NoTextCells(withPps);
    var withRent := if Price in cols then RentFillStep(withPps) else withPps;
    assert NoTextCells(withRent);
  }

  /** A conforming row has no text left after coercion. */
  lemma CoercedNoText(r: Listing, cols: set<Column>)
    requires Conforms(r, cols)
    ensures NoTextCells(CoerceColumns(r, cols))
  {
    var c := CoerceColumns(r, cols);
    forall x | IsNumeric(x) ensures !NumericCell(c, x).Str? {
      if x !in cols {
        assert IsNull(r, x);
      }
    }
    assert !NumericCell(c, Price).Str? && !NumericCell(c, Sqft).Str? && !NumericCell(c, Beds).Str?;
    assert !NumericCell(c, Baths).Str? && !NumericCell(c, YearBuilt).Str?;
    assert !NumericCell(c, EstimatedRent).Str? && !NumericCell(c, PricePerSqft).Str?;
    assert !NumericCell(c, WalkScore).Str? && !NumericCell(c, TransitScore).Str?;
    assert !NumericCell(c, BikeScore).Str? && !NumericCell(c, MonthlyCashflow).Str?;
  }

  /** Each step, applied twice, is the step applied once. */
  lemma StepsEachIdempotent(x: Listing)
    ensures PricePerSqftStep(PricePerSqftStep(x)) == PricePerSqftStep(x)
    ensures RentFillStep(RentFillStep(x)) == RentFillStep(x)
    ensures RentYieldStep(RentYieldStep(x)) == RentYieldStep(x)
  {
  }

  /** The price-per-square-foot step reads and writes nothing the other two
      steps write or read, so it commutes with them. */
  lemma PricePerSqftCommutes(x: Listing)
    ensures PricePerSqftStep(RentFillStep(x)) == RentFillStep(PricePerSqftStep(x))
    ensures PricePerSqftStep(RentYieldStep(x)) == RentYieldStep(PricePerSqftStep(x))
  {
  }

  /** Once rent has been filled, the rent step finds nothing left to fill,
      even after the yield step. */
  lemma RentFillSettled(x: Listing)
    ensures RentFillStep(RentYieldStep(RentFillStep(x))) == RentYieldStep(RentFillStep(x))
  {
  }

  /** The three steps together are idempotent. */
  lemma StepsIdempotent(c: Listing, cols: set<Column>)
    ensures Steps(Steps(c, cols), cols) == Steps(c, cols)
  {
    if Price in cols {
      var p := if Sqft in cols then PricePerSqftStep(c) else c;
      var e := RentYieldStep(RentFillStep(p));
      assert Steps(c, cols) == e;
      StepsEachIdempotent(c);
      StepsEachIdempotent(RentFillStep(p));
      PricePerSqftCommutes(RentFillStep(p));
      PricePerSqftCommutes(p);
      RentFillSettled(p);
      if Sqft in cols {
        assert PricePerSqftStep(e) == e;
      }
      assert RentFillStep(e) == e;
      assert RentYieldStep(e) == e;
    }
  }

  /** A row enriched twice is the row enriched once: rent is only filled
      where it is missing, and price per square foot and yield are
      recomputed from inputs the first pass left numeric and unchanged. */
  lemma EnrichRowIdempotent(r: Listing, cols: set<Column>)
    requires Conforms(r, cols)
    ensures EnrichRow(EnrichRow(r, cols), EnrichedColumns(cols)) == EnrichRow(r, cols)
  {
    var cols' := EnrichedColumns(cols);
    var c := CoerceColumns(r, cols);
    var e := Steps(c, cols);
    EnrichRowNoText(r, cols);
    CoerceNoText(e, cols');
    assert EnrichRow(e, cols') == Steps(e, cols');
    StepsSameGuards(e, cols, cols');
    StepsIdempotent(c, cols);
  }

  /** The steps depend on the columns only through `price` and `sqft`. */
  lemma StepsSameGuards(c: Listing, cols: set<Column>, cols': set<Column>)
    requires cols' == EnrichedColumns(cols)
    ensures Steps(c, cols') == Steps(c, cols)
  {
    assert Price in cols' <==> Price in cols;
    assert Sqft in cols' <==> Sqft in cols;
  }

  /** Idempotence of `enrich_dataframe` on a whole frame. */
  lemma {:induction false} EnrichIdempotent(t: Table)
    requires t.Valid()
    ensures EnrichTable(EnrichTable(t)) == EnrichTable(t)
  {
    var once := EnrichTable(t);
    EnrichTableValid(t);
    assert EnrichedColumns(once.columns) == once.columns;
    forall i | 0 <= i < |t.rows|
      ensures EnrichRow(once.rows[i], once.columns) == once.rows[i]
    {
      EnrichRowIdempotent(t.rows[i], t.columns);
    }
  }

  // ---------------------------------------------------------------------
  // The categorizers' bins
  // ---------------------------------------------------------------------

  /** `categorize_walkscore`'s `np.select`: the first two bins share a label. */
  function WalkScoreLabel(score: Option<real>): string {
    match score
    case None => "Unknown"
    case Some(s) =>
      if s < 25.0 then "Car-Dependent"
      else if s < 50.0 then "Car-Dependent"
      else if s < 70.0 then "Somewhat Walkable"
      else if s < 90.0 then "Very Walkable"
      else "Walker's Paradise"
  }

  /** `categorize_rent_yield`'s `np.select`. */
  function YieldLabel(y: Option<real>): string {
    match y
    case None => "Unknown"
    case Some(v) =>
      if v < 0.03 then "Very Low"
      else if v < 0.05 then "Low"
      else if v < 0.07 then "Average"
      else if v < 0.1 then "Good"
      else "Excellent"
  }

  /** The bin edges and labels of `categorize_price`. */
  const PriceEdges: seq<real> := [0.0, 250000.0, 500000.0, 750000.0, 1000000.0, 1500000.0, 2000000.0]
  const PriceLabels: seq<string> :=
    ["<$250K", "$250K-$500K", "$500K-$750K", "$750K-$1M", "$1M-$1.5M", "$1.5M-$2M", "$2M+"]

  /** `pd.cut(price, bins, labels)`: bins closed on the right, so an edge
      value falls in the lower bin; a price of 0 or below, or none, gets
      no category. */
  function PriceLabel(p: Option<real>): Option<string> {
    match p
    case None => None
    case Some(v) =>
      if v <= 0.0 then None
      else if v <= 250000.0 then Some("<$250K")
      else if v <= 500000.0 then Some("$250K-$500K")
      else if v <= 750000.0 then Some("$500K-$750K")
      else if v <= 1000000.0 then Some("$750K-$1M")
      else if v <= 1500000.0 then Some("$1M-$1.5M")
      else if v <= 2000000.0 then Some("$1.5M-$2M")
      else Some("$2M+")
  }

  /** Each walkability label belongs to exactly the scores of its bins. */
  lemma WalkScoreBins(score: Option<real>)
    ensures WalkScoreLabel(score) == "Unknown" <==> score.None?
    ensures WalkScoreLabel(score) == "Car-Dependent" <==> score.Some? && score.value < 50.0
    ensures WalkScoreLabel(score) == "Somewhat Walkable" <==> score.Some? && 50.0 <= score.value < 70.0
    ensures WalkScoreLabel(score) == "Very Walkable" <==> score.Some? && 70.0 <= score.value < 90.0
    ensures WalkScoreLabel(score) == "Walker's Paradise" <==> score.Some? && 90.0 <= score.value
  {
  }

  /** Each yield label belongs to exactly the yields of its bin. */
  lemma YieldBins(y: Option<real>)
    ensures YieldLabel(y) == "Unknown" <==> y.None?
    ensures YieldLabel(y) == "Very Low" <==> y.Some? && y.value < 0.03
    ensures YieldLabel(y) == "Low" <==> y.Some? && 0.03 <= y.value < 0.05
    ensures YieldLabel(y) == "Average" <==> y.Some? && 0.05 <= y.value < 0.07
    ensures YieldLabel(y) == "Good" <==> y.Some? && 0.07 <= y.value < 0.1
    ensures YieldLabel(y) == "Excellent" <==> y.Some? && 0.1 <= y.value
  {
  }

  /** A positive price gets the label of the one bin `(edge k, edge k+1]` it
      lies in (the last bin has no upper edge); any other price gets none. */
  lemma PriceBins(p: Option<real>, k: nat)
    requires k < |PriceLabels|
    ensures PriceLabel(p) == Some(PriceLabels[k]) <==>
      p.Some? && PriceEdges[k] < p.value && (k + 1 == |PriceLabels| || p.value <= PriceEdges[k + 1])
    ensures PriceLabel(p).None? <==> p.None? || p.value <= 0.0
  {
  }

  /** Walkability labels never go down as the score goes up. */
  function WalkRank(name: string): nat {
    if name == "Car-Dependent" then 1
    else if name == "Somewhat Walkable" then 2
    else if name == "Very Walkable" then 3
    else if name == "Walker's Paradise" then 4
    else 0
  }

  lemma WalkScoreMonotone(a: real, b: real)
    requires a <= b
    ensures 1 <= WalkRank(WalkScoreLabel(Some(a))) <= WalkRank(WalkScoreLabel(Some(b)))
  {
  }

  // ---------------------------------------------------------------------
  // calculate_price_per_sqft and calculate_rent_yield, one row at a time
  // ---------------------------------------------------------------------

  /** Mask `price > 0 & sqft > 0` (a missing value compares false). */
  function CalcPricePerSqftStep(r: Listing): Listing {
    if r.price.Num? && r.price.v > 0.0 && r.sqft.Num? && r.sqft.v > 0.0
    then r.(pricePerSqft := Num(r.price.v / r.sqft.v))
    else r
  }

  /** Mask `price > 0 & estimated_rent > 0`. */
  function CalcRentYieldStep(r: Listing): Listing {
    if r.price.Num? && r.price.v > 0.0 && r.estimatedRent.Num? && r.estimatedRent.v > 0.0
    then r.(rentYield := Some(r.estimatedRent.v * 12.0 / r.price.v))
    else r
  }

  /** `calculate_price_per_sqft` is stricter than `enrich_dataframe`: on
      a positive price the two agree, a non-positive price is skipped by the
      calculator and still divided by enrichment, and without a numeric
      price neither changes the row. */
  lemma PricePerSqftCalculatorStricter(r: Listing)
    ensures r.price.Num? && r.price.v > 0.0 ==> CalcPricePerSqftStep(r) == PricePerSqftStep(r)
    ensures r.price.Num? && r.price.v <= 0.0 ==>
      && CalcPricePerSqftStep(r) == r
      && (r.sqft.Num? && r.sqft.v > 0.0 ==> PricePerSqftStep(r).pricePerSqft == Num(r.price.v / r.sqft.v))
    ensures !r.price.Num? ==> CalcPricePerSqftStep(r) == r && PricePerSqftStep(r) == r
  {
  }

  /** `calculate_rent_yield` is stricter than `enrich_dataframe`: on a
      positive rent the two agree, a non-positive rent is skipped by the
      calculator and still gives enrichment a yield, and without a numeric
      rent neither changes the row. */
  lemma RentYieldCalculatorStricter(r: Listing)
    ensures r.estimatedRent.Num? && r.estimatedRent.v > 0.0 ==> CalcRentYieldStep(r) == RentYieldStep(r)
    ensures r.estimatedRent.Num? && r.estimatedRent.v <= 0.0 ==>
      && CalcRentYieldStep(r) == r
      && (r.price.Num? && r.price.v > 0.0 ==> RentYieldStep(r).rentYield == Some(r.estimatedRent.v * 12.0 / r.price.v))
    ensures !r.estimatedRent.Num? ==> CalcRentYieldStep(r) == r && RentYieldStep(r) == r
  {
  }

  /** The worked example: price 500000, 1000 sq ft, no rent. */
  lemma EnrichExample(r: Listing)
    requires r.price == Num(500000.0) && r.sqft == Num(1000.0) && r.estimatedRent == Null
    ensures var e := EnrichRow(r, {Price, Sqft});
      && e.pricePerSqft == Num(500.0)
      && e.estimatedRent == Num(4000.0)
      && e.rentYield == Some(0.096)
      && YieldLabel(e.rentYield) == "Good"
      && PriceLabel(AsNumber(e.price)) == Some("$250K-$500K")
  {
  }

  // ---------------------------------------------------------------------
  // The frame, updated in place
  // ---------------------------------------------------------------------

  class Frame {
    var columns: set<Column>
    var rows: array<Listing>

    ghost predicate Valid()
      reads this, rows
    {
      forall i :: 0 <= i < rows.Length ==> Conforms(rows[i], columns)
    }

    /** The frame's current value. */
    ghost function AsTable(): Table
      reads this, rows
    {
      Table(columns, rows[..])
    }

    /** No cell of numeric column `c` holds text. */
    predicate NoText(c: Column)
      requires IsNumeric(c)
      reads this, rows
    {
      forall i :: 0 <= i < rows.Length ==> !NumericCell(rows[i], c).Str?
    }

    constructor (t: Table)
      requires t.Valid()
      ensures Valid() && fresh(rows)
      ensures AsTable() == t
    {
      columns := t.columns;
      rows := new Listing[|t.rows|](i requires 0 <= i < |t.rows| => t.rows[i]);
    }

    /** Applies `step` to every row: a masked column assignment whose mask
        and value `step` computes from the row. */
    method MapRows(step: Listing -> Listing)
      modifies rows
      ensures forall i :: 0 <= i < rows.Length ==> rows[i] == step(old(rows[i]))
    {
      for i := 0 to rows.Length
        invariant forall j :: 0 <= j < i ==> rows[j] == step(old(rows[j]))
        invariant forall j :: i <= j < rows.Length ==> rows[j] == old(rows[j])
      {
        rows[i] := step(rows[i]);
      }
    }

    /** `pd.to_numeric(df[c], errors='coerce')` written back to column `c`. */
    method CoerceColumn(c: Column)
      requires Valid()
      modifies rows
      ensures Valid()
      ensures forall i :: 0 <= i < rows.Length ==> rows[i] == CoerceColumns(old(rows[i]), {c})
    {
      MapRows(r => CoerceColumns(r, {c}));
      forall i | 0 <= i < rows.Length ensures Conforms(rows[i], columns) {
        StepsKeepConformity(old(rows[i]), columns, {c});
      }
    }

    /** One turn of that loop: column `NumericColumns[k]` is coerced when
        the frame has it, or added when it is a derived column the frame
        lacks. */
    method CoerceNext(k: nat, ghost rows0: seq<Listing>, ghost cols0: set<Column>)
      requires k < |NumericColumns| && Valid() && |rows0| == rows.Length
      requires columns == cols0 + AddedColumns * ColumnsBefore(k)
      requires forall i :: 0 <= i < rows.Length ==> rows[i] == CoerceColumns(rows0[i], cols0 * ColumnsBefore(k))
      modifies this, rows
      ensures rows == old(rows) && Valid()
      ensures columns == cols0 + AddedColumns * ColumnsBefore(k + 1)
      ensures forall i :: 0 <= i < rows.Length ==> rows[i] == CoerceColumns(rows0[i], cols0 * ColumnsBefore(k + 1))
    {
      var c := NumericColumns[k];
      NumericColumnsDistinct(k);
      assert ColumnsBefore(k + 1) == ColumnsBefore(k) + {c};
      if c in columns {
        assert c in cols0;
        assert cols0 * ColumnsBefore(k + 1) == cols0 * ColumnsBefore(k) + {c};
        CoerceColumn(c);
        forall i | 0 <= i < rows.Length
          ensures rows[i] == CoerceColumns(rows0[i], cols0 * ColumnsBefore(k + 1))
        {
          CoerceColumnsAdd(rows0[i], cols0 * ColumnsBefore(k), c);
        }
      } else {
        assert cols0 * ColumnsBefore(k + 1) == cols0 * ColumnsBefore(k);
        if c in AddedColumns {
          columns := columns + {c};
        }
      }
    }

    /** The loop at the head of `enrich_dataframe`: each numeric column the
        frame has is coerced to numbers, and each derived column it lacks is
        added, all missing. */
    method CoerceNumericColumns()
      requires Valid()
      modifies this, rows
      ensures rows == old(rows) && Valid()
      ensures columns == old(columns) + AddedColumns
      ensures forall i :: 0 <= i < rows.Length ==> rows[i] == CoerceColumns(old(rows[i]), old(columns))
    {
      ghost var rows0, cols0 := rows[..], columns;
      for k := 0 to |NumericColumns|
        invariant rows == old(rows)
        invariant columns == cols0 + AddedColumns * ColumnsBefore(k)
        invariant forall i :: 0 <= i < rows.Length ==> rows[i] == CoerceColumns(rows0[i], cols0 * ColumnsBefore(k))
        invariant Valid()
      {
        CoerceNext(k, rows0, cols0);
      }
      AllColumnsBefore();
      forall i | 0 <= i < rows.Length ensures rows[i] == CoerceColumns(rows0[i], cols0) {
        CoerceAllBefore(rows0[i], cols0);
      }
    }

    /** `enrich_dataframe(df)`. */
    method Enrich()
      requires Valid()
      modifies this, rows
      ensures rows == old(rows) && Valid()
      ensures AsTable() == EnrichTable(old(AsTable()))
    {
      ghost var rows0, cols0 := rows[..], columns;
      CoerceNumericColumns();
      ghost var coerced := rows[..];
      FillPricePerSqft();
      ghost var perSqft := rows[..];
      FillRent();
      ghost var filled := rows[..];
      FillRentYield();
      assert columns == EnrichedColumns(cols0);
      forall i | 0 <= i < rows.Length ensures rows[i] == EnrichRow(rows0[i], cols0) {
        assert coerced[i] == CoerceColumns(rows0[i], cols0);
        assert perSqft[i] == if Price in cols0 && Sqft in cols0 then PricePerSqftStep(coerced[i]) else coerced[i];
        assert filled[i] == if Price in cols0 then RentFillStep(perSqft[i]) else perSqft[i];
      }
    }

    /** `price_per_sqft` for the rows whose price and sqft allow it, when
        the frame has both columns. */
    method FillPricePerSqft()
      requires Valid() && PricePerSqft in columns
      modifies this, rows
      ensures rows == old(rows) && Valid() && columns == old(columns)
      ensures forall i :: 0 <= i < rows.Length ==>
        rows[i] == if Price in columns && Sqft in columns then PricePerSqftStep(old(rows[i])) else old(rows[i])
    {
      if Price in columns && Sqft in columns {
        label Before:
        MapRows(PricePerSqftStep);
        forall i | 0 <= i < rows.Length ensures Conforms(rows[i], columns) {
          StepsKeepConformity(old@Before(rows[i]), columns, {});
        }
      }
    }

    /** The 0.8% rent estimate for the rows that lack one, when the frame
        has a price column. */
    method FillRent()
      requires Valid() && EstimatedRent in columns
      modifies this, rows
      ensures rows == old(rows) && Valid() && columns == old(columns)
      ensures forall i :: 0 <= i < rows.Length ==>
        rows[i] == if Price in columns then RentFillStep(old(rows[i])) else old(rows[i])
    {
      if Price in columns {
        label Before:
        MapRows(RentFillStep);
        forall i | 0 <= i < rows.Length ensures Conforms(rows[i], columns) {
          StepsKeepConformity(old@Before(rows[i]), columns, {});
        }
      }
    }

    /** The gross yield, adding its column, when the frame has a price and
        a rent column. */
    method FillRentYield()
      requires Valid()
      modifies this, rows
      ensures rows == old(rows) && Valid()
      ensures columns == old(columns) + (if EstimatedRent in old(columns) && Price in old(columns) then {RentYield} else {})
      ensures forall i :: 0 <= i < rows.Length ==>
        rows[i] == if EstimatedRent in old(columns) && Price in old(columns) then RentYieldStep(old(rows[i])) else old(rows[i])
    {
      if EstimatedRent in columns && Price in columns {
        if RentYield !in columns {
          columns := columns + {RentYield};
        }
        label Before:
        MapRows(RentYieldStep);
        forall i | 0 <= i < rows.Length ensures Conforms(rows[i], columns) {
          StepsKeepConformity(old@Before(rows[i]), columns, {});
        }
      }
    }

    /** `calculate_price_per_sqft(df)`. Comparing text with a number raises
        TypeError in pandas, so the price and sqft columns hold no text. */
    method CalculatePricePerSqft()
      requires Valid()
      requires Price in columns && Sqft in columns ==> NoText(Price) && NoText(Sqft)
      modifies this, rows
      ensures rows == old(rows) && Valid()
      ensures if Price in old(columns) && Sqft in old(columns)
        then columns == old(columns) + {PricePerSqft}
          && forall i :: 0 <= i < rows.Length ==> rows[i] == CalcPricePerSqftStep(old(rows[i]))
        else columns == old(columns) && rows[..] == old(rows[..])
    {
      if Price in columns && Sqft in columns {
        columns := columns + {PricePerSqft};
        MapRows(CalcPricePerSqftStep);
      }
    }

    /** `calculate_rent_yield(df)`; the price and rent columns hold no text. */
    method CalculateRentYield()
      requires Valid()
      requires Price in columns && EstimatedRent in columns ==> NoText(Price) && NoText(EstimatedRent)
      modifies this, rows
      ensures rows == old(rows) && Valid()
      ensures if Price in old(columns) && EstimatedRent in old(columns)
        then columns == old(columns) + {RentYield}
          && forall i :: 0 <= i < rows.Length ==> rows[i] == CalcRentYieldStep(old(rows[i]))
        else columns == old(columns) && rows[..] == old(rows[..])
    {
      if Price in columns && EstimatedRent in columns {
        columns := columns + {RentYield};
        MapRows(CalcRentYieldStep);
      }
    }

    /** `categorize_walkscore(df)`: every row gets exactly one label, the
        whole column being replaced; the scores hold no text. */
    method CategorizeWalkscore()
      requires Valid()
      requires WalkScore in columns ==> NoText(WalkScore)
      modifies this, rows
      ensures rows == old(rows) && Valid()
      ensures if WalkScore in old(columns)
        then columns == old(columns) + {WalkScoreCategory}
          && forall i :: 0 <= i < rows.Length ==>
               rows[i] == old(rows[i]).(walkScoreCategory := Some(WalkScoreLabel(AsNumber(old(rows[i]).walkScore))))
        else columns == old(columns) && rows[..] == old(rows[..])
    {
      if WalkScore in columns {
        columns := columns + {WalkScoreCategory};
        MapRows((r: Listing) => r.(walkScoreCategory := Some(WalkScoreLabel(AsNumber(r.walkScore)))));
      }
    }

    /** `categorize_rent_yield(df)`. */
    method CategorizeRentYield()
      requires Valid()
      modifies this, rows
      ensures rows == old(rows) && Valid()
      ensures if RentYield in old(columns)
        then columns == old(columns) + {YieldCategory}
          && forall i :: 0 <= i < rows.Length ==>
               rows[i] == old(rows[i]).(yieldCategory := Some(YieldLabel(old(rows[i]).rentYield)))
        else columns == old(columns) && rows[..] == old(rows[..])
    {
      if RentYield in columns {
        columns := columns + {YieldCategory};
        MapRows((r: Listing) => r.(yieldCategory := Some(YieldLabel(r.rentYield))));
      }
    }

    /** `categorize_price(df)`: the whole column is replaced, so a row whose
        price has no bin loses any earlier category. */
    method CategorizePrice()
      requires Valid()
      requires Price in columns ==> NoText(Price)
      modifies this, rows
      ensures rows == old(rows) && Valid()
      ensures if Price in old(columns)
        then columns == old(columns) + {PriceCategory}
          && forall i :: 0 <= i < rows.Length ==>
               rows[i] == old(rows[i]).(priceCategory := PriceLabel(AsNumber(old(rows[i]).price)))
        else columns == old(columns) && rows[..] == old(rows[..])
    {
      if Price in columns {
        columns := columns + {PriceCategory};
        MapRows((r: Listing) => r.(priceCategory := PriceLabel(AsNumber(r.price))));
      }
    }
  }

  /** The first `k` columns `enrich_dataframe` coerces. */
  function ColumnsBefore(k: nat): set<Column>
    requires k <= |NumericColumns|
  {
    set j | 0 <= j < k :: NumericColumns[j]
  }

  /** All eleven numeric columns have been coerced once the loop is done. */
  lemma AllColumnsBefore()
    ensures forall c :: IsNumeric(c) ==> c in ColumnsBefore(|NumericColumns|)
  {
    forall c | IsNumeric(c) ensures c in ColumnsBefore(|NumericColumns|) {
      var j := match c
        case Price => 0 case Sqft => 1 case Beds => 2 case Baths => 3
        case YearBuilt => 4 case EstimatedRent => 5 case PricePerSqft => 6
        case WalkScore => 7 case TransitScore => 8 case BikeScore => 9
        case _ => 10;
      assert NumericColumns[j] == c;
    }
  }

  /** Coercing once more, one column at a time. */
  lemma CoerceColumnsAdd(r: Listing, s: set<Column>, c: Column)
    ensures CoerceColumns(CoerceColumns(r, s), {c}) == CoerceColumns(r, s + {c})
  {
    var once := CoerceColumns(r, s);
    forall x: Cell ensures Coerce(Coerce(x)) == Coerce(x) {
    }
    assert forall d :: d in s + {c} <==> d in s || d == c;
    assert CoerceColumns(once, {c}) == CoerceColumns(r, s + {c});
  }

  lemma CoerceAllBefore(r: Listing, cols: set<Column>)
    ensures CoerceColumns(r, cols * ColumnsBefore(|NumericColumns|)) == CoerceColumns(r, cols)
  {
    AllColumnsBefore();
  }

  lemma NumericColumnsDistinct(k: nat)
    requires k < |NumericColumns|
    ensures NumericColumns[k] !in ColumnsBefore(k)
    ensures IsNumeric(NumericColumns[k])
  {
  }
}
