/** Types shared by every part of the model: identifiers, time, 32-bit integers,
  * the Option/Result wrappers and the domain's exception classes as one error datatype. */
module Common {

  /** A Guid. `EmptyGuid` plays the role of Guid.Empty (the default value). */
  type Guid = nat
  const EmptyGuid: Guid := 0

  /** A point in time or a duration, in 100-nanosecond ticks as DateTime counts them. */
  type Time = int
  const TicksPerSecond: int := 10_000_000

  /** The range of C#'s `int`. */
  const MinInt32: int := -0x8000_0000
  const MaxInt32: int := 0x7FFF_FFFF
  type Int32 = x: int | MinInt32 <= x <= MaxInt32

  /** Unchecked 32-bit two's-complement wrap-around, as C# `int` arithmetic behaves by default. */
  function Wrap32(x: int): (r: Int32)
    ensures MinInt32 <= x <= MaxInt32 ==> r == x
    ensures (r - x) % 0x1_0000_0000 == 0
  {
    (x - MinInt32) % 0x1_0000_0000 + MinInt32
  }

  datatype Option<+T> = None | Some(value: T)

  datatype Result<+T, +E> = Ok(value: T) | Err(error: E)
  {
    predicate IsFailure() { Err? }
    function PropagateFailure<U>(): Result<U, E> requires Err? { Err(error) }
    function Extract(): T requires Ok? { value }
  }

  /** The result of an operation that returns nothing (a C# `void` method that may throw). */
  datatype Outcome<+E> = Pass | Fail(error: E)
  {
    predicate IsFailure() { Fail? }
    function PropagateFailure(): Outcome<E> requires Fail? { this }
  }

  /** Why a repository lookup raised InvalidOperationException. */
  datatype Missing = ProductNotFound(productId: Guid) | ReservationNotFound(reservationId: Guid)

  /** The exceptions the domain throws, one constructor per exception class. */
  datatype Error =
    | ArgumentNull(paramName: string)
    | Argument(message: string)
    | DivideByZero
    | InvalidOperation(missing: Missing)
    | NoMatchingElement
    | CustomerIdRequired
    | OrderMustHaveAtLeastOneLine
    | NegativeOrderTotal
    | OrderLinesRequired
    | OrderLineNotFound(orderLineId: Guid)
    | OrderLineProductRequired
    | OrderLineQuantityMustBePositive
    | ProductNameRequired
    | ProductPriceMustBeNonNegative
    | ProductQuantityMustBeNonNegative
    | ReservationAlreadyConfirmed(reservationId: Guid)
    | ReservationExpired(reservationId: Guid)
}
