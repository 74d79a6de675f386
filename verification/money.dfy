/** Money. The source stores amounts in `DecimalField(max_digits=10,
    decimal_places=2)` columns; the model keeps amounts as exact rationals and
    states the column's range separately. */
module Money {

  /** The largest magnitude a 10-digit, 2-decimal column holds is 99999999.99. */
  const ColumnBound: real := 100000000.0

  /** `x` is a whole number of cents. */
  predicate IsCents(x: real) {
    (x * 100.0).Floor as real == x * 100.0
  }

  /** `x` can be stored in an amount column without rounding. */
  predicate FitsAmountColumn(x: real) {
    IsCents(x) && -ColumnBound < x < ColumnBound
  }

  /** `calculate_monthly_amount` (apps/core/utils/payments.py:7-13), also written
      inline by both generators: an even split of `monthly` over `count` payers,
      and 0 when there is nobody to split over. */
  function MonthlyShare(monthly: real, count: nat): (r: real)
    ensures count == 0 ==> r == 0.0
    ensures count >= 1 ==> r * (count as real) == monthly
    ensures count >= 1 && monthly >= 0.0 ==> 0.0 <= r <= monthly
  {
    if count == 0 then 0.0 else monthly / (count as real)
  }

  /** No more than `count` shares ever add up to more than the amount split. */
  lemma SharesNeverExceedTotal(monthly: real, count: nat, k: nat)
    requires monthly >= 0.0 && k <= count
    ensures (k as real) * MonthlyShare(monthly, count) <= monthly
  {
    if count > 0 {
      var s := MonthlyShare(monthly, count);
      assert s >= 0.0;
      assert (k as real) * s <= (count as real) * s;
    }
  }

  /** A share of a storable non-negative amount stays within the column's
      range; only its cents may need rounding. */
  lemma ShareWithinColumnRange(monthly: real, count: nat)
    requires FitsAmountColumn(monthly) && monthly >= 0.0
    ensures -ColumnBound < MonthlyShare(monthly, count) < ColumnBound
  {
  }

  /** Subtracting a whole number of cents from a whole number of cents leaves
      a whole number of cents. */
  lemma CentsClosedUnderDebit(balance: real, amount: real)
    requires IsCents(balance) && IsCents(amount)
    ensures IsCents(balance - amount)
  {
    var b := (balance * 100.0).Floor;
    var a := (amount * 100.0).Floor;
    assert (balance - amount) * 100.0 == (b - a) as real;
  }
}
