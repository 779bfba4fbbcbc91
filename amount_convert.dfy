/** utils/amountconvert.js: the order amount in cents handed to the payment
    provider. */
module AmountConvert {
  import opened Wrappers

  datatype OrderItem = OrderItem(amount: real)

  /** `calculateTotalOrderAmount(items)`: throws "Invalid items array" for a
      missing or empty array, otherwise converts the first item's amount from
      dollars to cents. */
  function CalculateTotalOrderAmount(items: Option<seq<OrderItem>>): (r: Result<real, string>)
    ensures r.Failure? <==> items.None? || |items.value| == 0
    ensures r.Failure? ==> r.error == "Invalid items array"
  {
    if items.None? || |items.value| == 0 then Failure("Invalid items array")
    else Success(items.value[0].amount * 100.0)
  }

  /** Only the first item counts: two orders with the same first amount give
      the same total whatever follows it, and the total is that amount in
      cents. */
  lemma FirstItemOnly(a: seq<OrderItem>, b: seq<OrderItem>)
    requires |a| > 0 && |b| > 0 && a[0].amount == b[0].amount
    ensures CalculateTotalOrderAmount(Some(a)) == CalculateTotalOrderAmount(Some(b))
    ensures CalculateTotalOrderAmount(Some(a)) == Success(a[0].amount * 100.0)
  {
  }

  /** A whole number of dollars gives a whole number of cents that is a
      multiple of 100. */
  lemma WholeDollarsGiveWholeCents(items: seq<OrderItem>, dollars: int)
    requires |items| > 0 && items[0].amount == dollars as real
    ensures CalculateTotalOrderAmount(Some(items)) == Success((100 * dollars) as real)
  {
  }
}
