/** The Money value object: a non-negative decimal amount with checked arithmetic.
  * Every Money value passes through the `Amount` init check, so the type itself
  * carries the non-negativity invariant; each operator that could break it
  * returns a Result instead. */
module MoneyValue {
  import opened Common

  datatype MoneyRecord = MoneyRecord(amount: real)

  /** Only non-negative amounts are Money values. */
  type Money = m: MoneyRecord | 0.0 <= m.amount witness MoneyRecord(0.0)

  /** `new Money { Amount = amount }`: the init accessor rejects a negative amount. */
  function FromAmount(amount: real): (r: Result<Money, Error>)
    ensures r.Ok? <==> 0.0 <= amount
    ensures r.Ok? ==> r.value.amount == amount
    ensures r.Err? ==> r.error.Argument?
  {
    if amount < 0.0 then Err(Argument("Amount cannot be negative")) else Ok(MoneyRecord(amount))
  }

  function Zero(): (r: Money)
    ensures r.amount == 0.0
  {
    MoneyRecord(0.0)
  }

  /** `a + b`. The sum of two non-negative amounts always passes the init check. */
  function Add(a: Money, b: Money): (r: Money)
    ensures r.amount == a.amount + b.amount
    ensures FromAmount(a.amount + b.amount) == Ok(r)
  {
    MoneyRecord(a.amount + b.amount)
  }

  /** `a - b`: fails exactly when the difference would be negative. */
  function Sub(a: Money, b: Money): (r: Result<Money, Error>)
    ensures r.Ok? <==> b.amount <= a.amount
    ensures r.Ok? ==> Add(r.value, b) == a
  {
    FromAmount(a.amount - b.amount)
  }

  /** `money * (decimal)multiplier`. */
  function MulDecimal(money: Money, multiplier: real): (r: Result<Money, Error>)
    ensures r.Ok? <==> money.amount == 0.0 || 0.0 <= multiplier
    ensures r.Ok? ==> r.value.amount == money.amount * multiplier
  {
    FromAmount(money.amount * multiplier)
  }

  /** `money * multiplier` for an int multiplier delegates to the decimal overload. */
  function MulInt(money: Money, multiplier: Int32): (r: Result<Money, Error>)
    ensures r == MulDecimal(money, multiplier as real)
    ensures 0 <= multiplier ==> r.Ok? && r.value.amount == money.amount * multiplier as real
  {
    MulDecimal(money, multiplier as real)
  }

  /** `money / divisor`: division by zero is refused before the init check. */
  function Div(money: Money, divisor: real): (r: Result<Money, Error>)
    ensures divisor == 0.0 ==> r == Err(DivideByZero)
    ensures divisor != 0.0 ==> (r.Ok? <==> money.amount == 0.0 || 0.0 < divisor)
    ensures r.Ok? ==> r.value.amount * divisor == money.amount
  {
    if divisor == 0.0 then Err(DivideByZero) else FromAmount(money.amount / divisor)
  }

  /** Multiplying by a positive factor and dividing by it again gives the original amount. */
  lemma MulDivRoundTrip(money: Money, factor: real)
    requires 0.0 < factor
    ensures MulDecimal(money, factor).Ok?
    ensures Div(MulDecimal(money, factor).value, factor) == Ok(money)
  {
    var m := MulDecimal(money, factor).value;
    assert m.amount / factor == money.amount;
  }

  /** A negative multiplier on a positive amount always fails the init check. */
  lemma NegativeMultiplierFails(money: Money, multiplier: Int32)
    requires 0.0 < money.amount && multiplier < 0
    ensures MulInt(money, multiplier).Err?
  {
    assert money.amount * multiplier as real < 0.0;
  }
}
