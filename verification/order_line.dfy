/** The OrderLine child entity of the Order aggregate. Its setters are private and
  * only the validating constructor builds one, so it is a value here. */
module OrderLines {
  import opened Common
  import opened MoneyValue

  datatype OrderLineRecord = OrderLineRecord(id: Guid, productId: Guid, quantity: Int32, unitPrice: Money)

  /** Every order line names a product and has a positive quantity. */
  type OrderLine = l: OrderLineRecord | l.productId != EmptyGuid && 0 < l.quantity
    witness OrderLineRecord(0, 1, 1, MoneyRecord(0.0))

  /** `OrderLine.Create(id, productId, quantity, unitPrice)`: the product check comes
    * before the quantity check. */
  function CreateOrderLine(id: Guid, productId: Guid, quantity: Int32, unitPrice: Money): (r: Result<OrderLine, Error>)
    ensures productId == EmptyGuid ==> r == Err(OrderLineProductRequired)
    ensures productId != EmptyGuid && quantity <= 0 ==> r == Err(OrderLineQuantityMustBePositive)
    ensures r.Ok? <==> productId != EmptyGuid && 0 < quantity
    ensures r.Ok? ==> r.value == OrderLineRecord(id, productId, quantity, unitPrice)
  {
    if productId == EmptyGuid then Err(OrderLineProductRequired)
    else if quantity <= 0 then Err(OrderLineQuantityMustBePositive)
    else Ok(OrderLineRecord(id, productId, quantity, unitPrice))
  }

  /** `SubTotal => UnitPrice * Quantity`; the multiplication cannot fail because the
    * quantity is positive. */
  function SubTotal(line: OrderLine): (r: Money)
    ensures MulInt(line.unitPrice, line.quantity) == Ok(r)
    ensures r.amount == line.unitPrice.amount * line.quantity as real
  {
    MulInt(line.unitPrice, line.quantity).value
  }

  /** The sum of the subtotals, folded from the left. */
  function LinesTotal(lines: seq<OrderLine>): (total: real)
    ensures 0.0 <= total
  {
    if lines == [] then 0.0 else LinesTotal(lines[..|lines| - 1]) + SubTotal(lines[|lines| - 1]).amount
  }

  lemma {:induction false} LinesTotalAppend(a: seq<OrderLine>, b: seq<OrderLine>)
    ensures LinesTotal(a + b) == LinesTotal(a) + LinesTotal(b)
    decreases |b|
  {
    if b == [] {
      assert a + b == a;
    } else {
      var b' := b[..|b| - 1];
      assert (a + b)[..|a + b| - 1] == a + b';
      LinesTotalAppend(a, b');
    }
  }

  /** Removing the line at index k takes exactly its subtotal off the sum. */
  lemma LinesTotalRemove(lines: seq<OrderLine>, k: nat)
    requires k < |lines|
    ensures LinesTotal(lines[..k] + lines[k + 1..]) == LinesTotal(lines) - SubTotal(lines[k]).amount
  {
    assert lines == lines[..k] + [lines[k]] + lines[k + 1..];
    LinesTotalAppend(lines[..k] + [lines[k]], lines[k + 1..]);
    LinesTotalAppend(lines[..k], [lines[k]]);
    LinesTotalAppend(lines[..k], lines[k + 1..]);
    assert LinesTotal([lines[k]]) == SubTotal(lines[k]).amount by {
      assert [lines[k]][..0] == [];
    }
  }
}
