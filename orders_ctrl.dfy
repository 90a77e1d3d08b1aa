/** The order handlers of the admin interface: list the orders a page at a
    time, and patch an order field by field. */
module OrdersController {

  import opened Common
  import opened Text
  import opened OrderSchema
  import opened Store
  import opened Listing

  /** The filter `getOrders` hands to the store: the customer name matches
      the search pattern and the total lies in [min, max], both ends
      included. `matches` stands for the case-insensitive regular-expression test. */
  function OrderFilter(q: Query, matches: (string, string) -> bool): Order -> bool {
    (o: Order) => matches(q.search, o.customerName) && q.min as real <= o.totalPrice <= q.max as real
  }

  /** `getOrders`. `sorted` is the walk of the store in the order the
      requested sort puts it: every stored id, each once. */
  function GetOrders(orders: map<OrderId, Order>, sorted: seq<OrderId>, params: Params,
                     matches: (string, string) -> bool)
    : (r: Reply<Page<Order>>)
    requires ListsEveryKey(sorted, orders)
    ensures var q := Resolve(params, "orderDate");
      r == ListPage(InOrder(sorted, orders), OrderFilter(q, matches), q, "No orders found")
    ensures var q := Resolve(params, "orderDate");
      r.Success? ==> r.body.count == CountMatching(orders, OrderFilter(q, matches))
    ensures var q := Resolve(params, "orderDate");
      r.Success? ==> forall o :: o in r.body.items ==>
        && o in orders.Values
        && matches(q.search, o.customerName)
        && q.min as real <= o.totalPrice <= q.max as real
    ensures r.Success? ==> 0 < |r.body.items| <= Abs(r.body.limit) && r.body.totalPages == CeilDiv(r.body.count, r.body.limit)
    ensures r.Failure? ==> r == Failure(NOT_FOUND, "No orders found") || r == Failure(SERVER_ERROR, "Server error")
  {
    var q := Resolve(params, "orderDate");
    var docs := InOrder(sorted, orders);
    CountOfEveryKey(sorted, orders, OrderFilter(q, matches));
    assert forall o :: o in docs ==> o in orders.Values;
    ListPage(docs, OrderFilter(q, matches), q, "No orders found")
  }

  /** The fields of an `updateOrder` body; None is a field the body lacks. */
  datatype OrderPatch = OrderPatch(
    customerName: Option<string>,
    customerEmail: Option<string>,
    products: Option<seq<ProductId>>,
    totalPrice: Option<real>)

  /** The four assignments of `updateOrder`: each field takes the supplied
      value when it is truthy (any array is), the email through its
      lowercasing setter, and keeps its own value otherwise. A stored order
      stays valid, and the order date is never touched. */
  function MergeOrder(o: Order, patch: OrderPatch): (r: Order)
    ensures r.orderDate == o.orderDate
    ensures ValidOrder(o) ==> ValidOrder(r)
    ensures TruthyString(patch.customerName) ==> r.customerName == patch.customerName.value
    ensures !TruthyString(patch.customerName) ==> r.customerName == o.customerName
    ensures TruthyString(patch.customerEmail) ==> r.customerEmail == Lower(patch.customerEmail.value)
    ensures ValidOrder(o) && !TruthyString(patch.customerEmail) ==> r.customerEmail == o.customerEmail
    ensures patch.products.Some? ==> r.products == patch.products.value
    ensures patch.products.None? ==> r.products == o.products
    ensures r.totalPrice == (if TruthyNumber(patch.totalPrice) then patch.totalPrice.value else o.totalPrice)
  {
    LowerIdempotent(OrString(patch.customerEmail, o.customerEmail));
    o.(customerName := OrString(patch.customerName, o.customerName),
       customerEmail := Lower(OrString(patch.customerEmail, o.customerEmail)),
       products := OrArray(patch.products, o.products),
       totalPrice := OrNumber(patch.totalPrice, o.totalPrice))
  }

  /** A patch with no truthy field and no array leaves a stored order as it is. */
  lemma EmptyPatchKeepsOrder(o: Order, patch: OrderPatch)
    requires ValidOrder(o)
    requires !TruthyString(patch.customerName) && !TruthyString(patch.customerEmail)
    requires patch.products.None? && !TruthyNumber(patch.totalPrice)
    ensures MergeOrder(o, patch) == o
  {
  }

  /** Sending the same patch twice has the effect of sending it once. */
  lemma MergeOrderIdempotent(o: Order, patch: OrderPatch)
    ensures MergeOrder(MergeOrder(o, patch), patch) == MergeOrder(o, patch)
  {
    LowerIdempotent(OrString(patch.customerEmail, o.customerEmail));
  }

  /** An order document loaded for `updateOrder`. */
  class OrderDocument {
    var orderDate: Millis
    var customerName: string
    var customerEmail: string
    var products: seq<ProductId>
    var totalPrice: real

    /** The document `save` writes. */
    function Doc(): Order
      reads this
    {
      Order(orderDate, customerName, customerEmail, products, totalPrice)
    }

    constructor Load(o: Order)
      ensures Doc() == o
    {
      orderDate, customerName, customerEmail, products, totalPrice :=
        o.orderDate, o.customerName, o.customerEmail, o.products, o.totalPrice;
    }

    /** The four assignments of `updateOrder`, the email through its
        `lowercase` setter. */
    method Assign(patch: OrderPatch)
      modifies this
      ensures Doc() == MergeOrder(old(Doc()), patch)
    {
      var current := Doc();
      customerName := OrString(patch.customerName, current.customerName);
      customerEmail := Lower(OrString(patch.customerEmail, current.customerEmail));
      products := OrArray(patch.products, current.products);
      totalPrice := OrNumber(patch.totalPrice, current.totalPrice);
    }
  }

  /** `updateOrder`. Every required field of a stored order stays non-empty
      under the merge, so `save` accepts the result. */
  method UpdateOrder(db: Db, id: OrderId, patch: OrderPatch) returns (reply: Reply<Order>)
    requires db.Valid()
    modifies db
    ensures db.Valid()
    ensures db.products == old(db.products) && db.carts == old(db.carts)
    ensures db.placed == old(db.placed) && db.users == old(db.users)
    ensures id !in old(db.orders) ==>
      reply == Failure(NOT_FOUND, "Order not found") && db.orders == old(db.orders)
    ensures id in old(db.orders) ==>
      var saved := MergeOrder(old(db.orders)[id], patch);
      reply == Success(OK, saved) && db.orders == old(db.orders)[id := saved]
  {
    if id !in db.orders {
      return Failure(NOT_FOUND, "Order not found");
    }
    var order := new OrderDocument.Load(db.orders[id]);
    order.Assign(patch);
    var saved := order.Doc();
    db.orders := db.orders[id := saved];
    reply := Success(OK, saved);
  }
}
