/** The order schema: the order date defaults to the creation time, the
    customer's name, email and the total price are required, the email is
    lowercased by its setter, and the products are bare references. Also
    the record that checkout writes, whose fields the schema does not declare. */
module OrderSchema {

  import opened Common
  import opened Text
  import opened CartSchema

  datatype Order = Order(
    orderDate: Millis,
    customerName: string,
    customerEmail: string,
    products: seq<ProductId>,
    totalPrice: real)

  /** What every stored order satisfies: both required strings are non-empty
      and the email is in lowercase. */
  predicate ValidOrder(o: Order) {
    o.customerName != "" && o.customerEmail != "" && Lower(o.customerEmail) == o.customerEmail
  }

  /** Order fields as they reach the model; None is an omitted field. */
  datatype OrderInput = OrderInput(
    orderDate: Option<Millis>,
    customerName: Option<string>,
    customerEmail: Option<string>,
    products: Option<seq<ProductId>>,
    totalPrice: Option<real>)

  /** The failing `required` validators in schema path order (the email
      after its setter has lowercased it). */
  function OrderErrors(input: OrderInput): (errors: seq<FieldError>)
    ensures errors == [] <==>
      && input.customerName.Some? && input.customerName.value != ""
      && input.customerEmail.Some? && input.customerEmail.value != ""
      && input.totalPrice.Some?
  {
    (if input.customerName.None? || input.customerName.value == "" then [Required("customerName")] else [])
    + (if input.customerEmail.None? || Lower(input.customerEmail.value) == "" then [Required("customerEmail")] else [])
    + (if input.totalPrice.None? then [Required("totalPrice")] else [])
  }

  /** `new OrderModel({...})` followed by validation: the date defaults to
      `now`, the products to none, the email is stored lowercased. */
  function NewOrder(input: OrderInput, now: Millis): (r: Checked<Order>)
    ensures r.Rejected? <==> OrderErrors(input) != []
    ensures r.Rejected? ==> r.errors == OrderErrors(input)
    ensures r.Accepted? ==> ValidOrder(r.value)
    ensures r.Accepted? ==>
      && r.value.orderDate == (if input.orderDate.Some? then input.orderDate.value else now)
      && Some(r.value.customerName) == input.customerName
      && r.value.customerEmail == Lower(input.customerEmail.value)
      && r.value.products == (if input.products.Some? then input.products.value else [])
      && Some(r.value.totalPrice) == input.totalPrice
  {
    var errors := OrderErrors(input);
    if errors != [] then Rejected(errors)
    else
      LowerIdempotent(input.customerEmail.value);
      Accepted(Order(
        if input.orderDate.Some? then input.orderDate.value else now,
        input.customerName.value,
        Lower(input.customerEmail.value),
        if input.products.Some? then input.products.value else [],
        input.totalPrice.value))
  }

  /** Storing an order read back from the store changes nothing: its email
      is already lowercase. */
  lemma RestoreStoredOrder(o: Order, now: Millis)
    requires ValidOrder(o)
    ensures NewOrder(OrderInput(Some(o.orderDate), Some(o.customerName), Some(o.customerEmail),
                                Some(o.products), Some(o.totalPrice)), now) == Accepted(o)
  {
  }

  datatype OrderStatus = Pending

  /** The record checkout stores: the buyer, the items and total exactly as the
      client sent them, the time of checkout and the status. */
  datatype PlacedOrder = PlacedOrder(user: UserId, items: seq<LineItem>, total: real, date: Millis, status: OrderStatus)
}
