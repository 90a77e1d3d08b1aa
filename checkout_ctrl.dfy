/** The checkout handler: two ordered store writes. A pending order built
    from the client's items and total is stored first; the buyer's cart is
    emptied second, and a missing cart does not undo the first write. */
module CheckoutController {

  import opened Common
  import opened CartSchema
  import opened OrderSchema
  import opened Store
  import opened CartController

  /** The request check `!items || !total`: an items array is truthy even
      when empty, a total is truthy unless missing or zero. */
  predicate ProvidesItemsAndTotal(items: Option<seq<LineItem>>, total: Option<real>) {
    items.Some? && TruthyNumber(total)
  }

  /** `checkout`. `orderId` is the id the new order document receives and
      `now` the time of the request. */
  method Checkout(db: Db, user: UserId, items: Option<seq<LineItem>>, total: Option<real>,
                  orderId: OrderId, now: Millis)
    returns (reply: Reply<PlacedOrder>)
    requires db.Valid()
    modifies db
    ensures db.Valid()
    ensures db.products == old(db.products) && db.orders == old(db.orders) && db.users == old(db.users)
    ensures !ProvidesItemsAndTotal(items, total) ==>
      && reply == Failure(BAD_REQUEST, "Please provide items and total.")
      && db.placed == old(db.placed) && db.carts == old(db.carts)
    ensures ProvidesItemsAndTotal(items, total) && orderId in old(db.placed) ==>
      && reply == Failure(SERVER_ERROR, "Server error.")
      && db.placed == old(db.placed) && db.carts == old(db.carts)
    ensures ProvidesItemsAndTotal(items, total) && orderId !in old(db.placed) ==>
      var order := PlacedOrder(user, items.value, total.value, now, Pending);
      && db.placed == old(db.placed)[orderId := order]
      && (user !in old(db.carts) ==>
            reply == Failure(NOT_FOUND, "Cart not found.") && db.carts == old(db.carts))
      && (user in old(db.carts) ==>
            && reply == Success(OK, order)
            && db.carts == old(db.carts)[user := old(db.carts)[user].(items := [])])
  {
    if !ProvidesItemsAndTotal(items, total) {
      return Failure(BAD_REQUEST, "Please provide items and total.");
    }
    if orderId in db.placed {
      // a duplicate `_id` makes `order.save()` throw
      return Failure(SERVER_ERROR, "Server error.");
    }
    var order := PlacedOrder(user, items.value, total.value, now, Pending);
    db.placed := db.placed[orderId := order];
    if user !in db.carts {
      return Failure(NOT_FOUND, "Cart not found.");
    }
    var cart := new Cart.Load(db.carts[user]);
    cart.Clear();
    db.carts := db.carts[user := cart.Doc()];
    reply := Success(OK, order);
  }
}
