/** A listing row as the dashboard's data frames hold it, and the frame
    itself as a value: the set of columns it has and its rows. */
module Listings {
  import opened Wrappers
  import opened Text

  /** One cell of a numeric column before `pd.to_numeric` has been applied:
      missing (NaN/None), a number, or text read from the store. */
  datatype Cell = Null | Num(v: real) | Str(s: string)

  /** The columns the enrichment code reads or writes. */
  datatype Column =
    | Price | Sqft | Beds | Baths | YearBuilt | EstimatedRent | PricePerSqft
    | WalkScore | TransitScore | BikeScore | MonthlyCashflow
    | RentYield | MlsNumber | MlsType | TaxInformation
    | WalkScoreCategory | YieldCategory | PriceCategory

  /** The columns `enrich_dataframe` coerces to numbers, in its order. */
  const NumericColumns: seq<Column> :=
    [Price, Sqft, Beds, Baths, YearBuilt, EstimatedRent, PricePerSqft,
     WalkScore, TransitScore, BikeScore, MonthlyCashflow]

  predicate IsNumeric(c: Column) {
    !(c.RentYield? || c.MlsNumber? || c.MlsType? || c.TaxInformation?
      || c.WalkScoreCategory? || c.YieldCategory? || c.PriceCategory?)
  }

  /** One row. `id` and `address` are always selected from the store; every
      other field belongs to a column that a frame may or may not have.
      `rent_yield` is never coerced, so the model takes that column to hold
      numbers only (as `get_all_listings` reads it, as float64). */
  datatype Listing = Listing(
    id: int,
    address: string,
    price: Cell, sqft: Cell, beds: Cell, baths: Cell, yearBuilt: Cell,
    estimatedRent: Cell, pricePerSqft: Cell,
    walkScore: Cell, transitScore: Cell, bikeScore: Cell, monthlyCashflow: Cell,
    rentYield: Option<real>,
    mlsNumber: Option<string>, mlsType: Option<string>, taxInformation: Option<string>,
    walkScoreCategory: Option<string>, yieldCategory: Option<string>,
    priceCategory: Option<string>)

  /** The cell of a numeric column. */
  function NumericCell(r: Listing, c: Column): Cell
    requires IsNumeric(c)
  {
    match c
    case Price => r.price
    case Sqft => r.sqft
    case Beds => r.beds
    case Baths => r.baths
    case YearBuilt => r.yearBuilt
    case EstimatedRent => r.estimatedRent
    case PricePerSqft => r.pricePerSqft
    case WalkScore => r.walkScore
    case TransitScore => r.transitScore
    case BikeScore => r.bikeScore
    case MonthlyCashflow => r.monthlyCashflow
  }

  /** Whether the row's value in column `c` is missing. */
  predicate IsNull(r: Listing, c: Column) {
    match c
    case RentYield => r.rentYield.None?
    case MlsNumber => r.mlsNumber.None?
    case MlsType => r.mlsType.None?
    case TaxInformation => r.taxInformation.None?
    case WalkScoreCategory => r.walkScoreCategory.None?
    case YieldCategory => r.yieldCategory.None?
    case PriceCategory => r.priceCategory.None?
    case _ => NumericCell(r, c).Null?
  }

  /** A row fits a frame with columns `cols`: a column the frame lacks is
      missing in the row. */
  predicate Conforms(r: Listing, cols: set<Column>) {
    forall c :: c !in cols ==> IsNull(r, c)
  }

  /** A data frame as a value: its columns and its rows in index order. */
  datatype Table = Table(columns: set<Column>, rows: seq<Listing>) {
    predicate Valid() {
      forall i :: 0 <= i < |rows| ==> Conforms(rows[i], columns)
    }
  }

  // ---------------------------------------------------------------------
  // pd.to_numeric(errors='coerce')
  // ---------------------------------------------------------------------

  function Pow10(n: nat): (p: nat)
    ensures p >= 1
  {
    if n == 0 then 1 else 10 * Pow10(n - 1)
  }

  /** A decimal literal without sign: digits, optionally a point and more
      digits, at least one digit in all. */
  function ParseUnsignedDecimal(d: string): Option<real> {
    match IndexOf(d, ".")
    case None => if IsNumeral(d) then Some(DigitsValue(d) as real) else None
    case Some(i) =>
      var whole, frac := d[..i], d[i + 1..];
      if (whole == [] || IsNumeral(whole)) && (frac == [] || IsNumeral(frac)) && (whole != [] || frac != [])
      then Some(DigitsValue(whole) as real + (DigitsValue(frac) as real) / (Pow10(|frac|) as real))
      else None
  }

  /** A decimal literal with an optional sign. */
  function ParseDecimal(s: string): Option<real> {
    if s != [] && (s[0] == '+' || s[0] == '-') then
      match ParseUnsignedDecimal(s[1..])
      case Some(v) => Some(if s[0] == '-' then -v else v)
      case None => None
    else ParseUnsignedDecimal(s)
  }

  /** `pd.to_numeric(cell, errors='coerce')`: numbers stay, text that reads
      as a number becomes that number, any other text becomes missing. */
  function Coerce(c: Cell): (r: Cell)
    ensures !r.Str?
    ensures c.Num? ==> r == c
    ensures c.Null? ==> r.Null?
  {
    match c
    case Str(s) => (match ParseDecimal(s) case Some(v) => Num(v) case None => Null)
    case _ => c
  }

  /** Text holding a whole number, as `str(n)` writes it, coerces to that
      number. */
  lemma CoerceIntegerText(n: int)
    ensures Coerce(Str(IntToString(n))) == Num(n as real)
  {
    IntTextParses(n);
  }

  lemma IntTextParses(n: int)
    ensures ParseDecimal(IntToString(n)) == Some(n as real)
  {
    if n < 0 {
      NegativeTextParses(-n);
      assert -((-n) as real) == n as real;
    } else {
      UnsignedTextParses(n);
    }
  }

  lemma UnsignedTextParses(m: nat)
    ensures ParseDecimal(NatToDigits(m)) == Some(m as real)
  {
    var s := NatToDigits(m);
    UnsignedOfDigits(m);
    NatToDigitsValue(m);
    assert IsDigit(s[0]);
  }

  lemma NegativeTextParses(m: nat)
    ensures ParseDecimal("-" + NatToDigits(m)) == Some(-(m as real))
  {
    var s := "-" + NatToDigits(m);
    UnsignedOfDigits(m);
    assert s[0] == '-' && s[1..] == NatToDigits(m);
  }

  /** The digits of a natural number read back as that number. */
  lemma UnsignedOfDigits(m: nat)
    ensures NatToDigits(m) != []
    ensures ParseUnsignedDecimal(NatToDigits(m)) == Some(m as real)
  {
    var d := NatToDigits(m);
    NatToDigitsValue(m);
    NumeralHasNoPoint(d);
  }

  lemma NumeralHasNoPoint(d: string)
    requires IsNumeral(d)
    ensures IndexOf(d, ".").None?
  {
    forall i | 0 <= i < |d| ensures !OccursAt(d, ".", i) {
      assert d[i..i + 1][0] == d[i];
    }
  }
}
