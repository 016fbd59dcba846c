/** SQLite values as the listing queries compare and sort them: NULL, an
    integer, a real or text. Comparisons with NULL are never true; numbers
    compare by value whatever their storage class; every number is less
    than every text; texts compare character by character. */
module SqlValues {

  datatype SqlValue = SqlNull | SqlInt(i: int) | SqlReal(r: real) | SqlText(s: string)
  {
    predicate IsNumber() {
      SqlInt? || SqlReal?
    }

    function Number(): real
      requires IsNumber()
    {
      if SqlInt? then i as real else r
    }
  }

  /** `a` comes no later than `b` in the BINARY collation. */
  predicate TextLeq(a: string, b: string) {
    if a == [] then true
    else if b == [] then false
    else if a[0] != b[0] then a[0] < b[0]
    else TextLeq(a[1..], b[1..])
  }

  lemma {:induction false} TextLeqTotal(a: string, b: string)
    ensures TextLeq(a, b) || TextLeq(b, a)
    ensures TextLeq(a, b) && TextLeq(b, a) ==> a == b
  {
    if a != [] && b != [] && a[0] == b[0] {
      TextLeqTotal(a[1..], b[1..]);
      assert a == [a[0]] + a[1..] && b == [b[0]] + b[1..];
    }
  }

  lemma {:induction false} TextLeqTransitive(a: string, b: string, c: string)
    requires TextLeq(a, b) && TextLeq(b, c)
    ensures TextLeq(a, c)
  {
    if a != [] && b != [] && c != [] && a[0] == b[0] && b[0] == c[0] {
      TextLeqTransitive(a[1..], b[1..], c[1..]);
    }
  }

  /** Three-way comparison of two values that are not NULL. */
  function Compare(a: SqlValue, b: SqlValue): (c: int)
    requires !a.SqlNull? && !b.SqlNull?
    ensures -1 <= c <= 1
    ensures a.IsNumber() && b.IsNumber() ==>
      (c < 0 <==> a.Number() < b.Number()) && (c == 0 <==> a.Number() == b.Number())
    ensures a.IsNumber() && b.SqlText? ==> c < 0
    ensures a.SqlText? && b.IsNumber() ==> c > 0
  {
    if a.IsNumber() && b.IsNumber() then
      (if a.Number() < b.Number() then -1 else if a.Number() == b.Number() then 0 else 1)
    else if a.IsNumber() then -1
    else if b.IsNumber() then 1
    else if a.s == b.s then 0
    else if TextLeq(a.s, b.s) then -1
    else 1
  }

  /** `a >= b`, `a <= b` and `a = b` as a WHERE clause reads them: true only
      when neither side is NULL and the comparison holds. */
  predicate AtLeast(a: SqlValue, b: SqlValue) {
    !a.SqlNull? && !b.SqlNull? && Compare(a, b) >= 0
  }

  predicate AtMost(a: SqlValue, b: SqlValue) {
    !a.SqlNull? && !b.SqlNull? && Compare(a, b) <= 0
  }

  predicate Equal(a: SqlValue, b: SqlValue) {
    !a.SqlNull? && !b.SqlNull? && Compare(a, b) == 0
  }

  /** A comparison with NULL on either side never holds, and equality is
      being at least and at most. */
  lemma NullNeverCompares(a: SqlValue, b: SqlValue)
    ensures a.SqlNull? || b.SqlNull? ==> !AtLeast(a, b) && !AtMost(a, b) && !Equal(a, b)
    ensures Equal(a, b) <==> AtLeast(a, b) && AtMost(a, b)
  {
  }

  /** Where `ORDER BY ... DESC` puts `a` no later than `b`: NULL is the
      smallest value, so it comes last. */
  predicate DescBefore(a: SqlValue, b: SqlValue) {
    if b.SqlNull? then true
    else if a.SqlNull? then false
    else Compare(a, b) >= 0
  }

  lemma DescBeforeTotal(a: SqlValue, b: SqlValue)
    ensures DescBefore(a, b) || DescBefore(b, a)
  {
    if a.SqlText? && b.SqlText? {
      TextLeqTotal(a.s, b.s);
    }
  }

  lemma DescBeforeTransitive(a: SqlValue, b: SqlValue, c: SqlValue)
    requires DescBefore(a, b) && DescBefore(b, c)
    ensures DescBefore(a, c)
  {
    if a.SqlText? && b.SqlText? && c.SqlText? {
      TextLeqTotal(a.s, b.s);
      TextLeqTotal(b.s, c.s);
      TextLeqTotal(a.s, c.s);
      if a.s != b.s && b.s != c.s {
        TextLeqTransitive(c.s, b.s, a.s);
      }
    }
  }
}
