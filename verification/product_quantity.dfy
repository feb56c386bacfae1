/** The ProductQuantity value object: a non-negative C# `int`. */
module ProductQuantityValue {
  import opened Common

  datatype QuantityRecord = QuantityRecord(value: Int32)

  /** Only non-negative values are quantities (the public constructor rejects the others). */
  type ProductQuantity = q: QuantityRecord | 0 <= q.value witness QuantityRecord(0)

  /** `new ProductQuantity(value)`. */
  function FromValue(value: Int32): (r: Result<ProductQuantity, Error>)
    ensures r.Ok? <==> 0 <= value
    ensures r.Ok? ==> r.value.value == value
    ensures r.Err? ==> r.error.Argument?
  {
    if value < 0 then Err(Argument("Quantity cannot be negative")) else Ok(QuantityRecord(value))
  }

  function Zero(): (r: ProductQuantity)
    ensures r.value == 0
  {
    QuantityRecord(0)
  }

  /** `a + b`: the sum is computed in unchecked 32-bit arithmetic, so a sum past
    * MaxInt32 wraps to a negative value and the constructor rejects it. */
  function Add(a: ProductQuantity, b: ProductQuantity): (r: Result<ProductQuantity, Error>)
    ensures r.Ok? <==> a.value + b.value <= MaxInt32
    ensures r.Ok? ==> r.value.value == a.value + b.value
  {
    FromValue(Wrap32(a.value + b.value))
  }

  /** `a - b`: fails when the difference is negative (2 - 3 fails). The difference of two
    * non-negative ints never overflows. */
  function Sub(a: ProductQuantity, b: ProductQuantity): (r: Result<ProductQuantity, Error>)
    ensures r.Ok? <==> b.value <= a.value
    ensures r.Ok? ==> r.value.value == a.value - b.value
    ensures r.Err? ==> r.error == Argument("Quantity cannot be negative after subtraction")
  {
    var result := a.value - b.value;
    if result < 0 then Err(Argument("Quantity cannot be negative after subtraction"))
    else FromValue(result)
  }

  /** Subtraction undoes addition and addition undoes subtraction. */
  lemma AddSubRoundTrip(a: ProductQuantity, b: ProductQuantity)
    ensures Add(a, b).Ok? ==> Sub(Add(a, b).value, b) == Ok(a)
    ensures Sub(a, b).Ok? ==> Add(Sub(a, b).value, b) == Ok(a)
  {
  }
}
