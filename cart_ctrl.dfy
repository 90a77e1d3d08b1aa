/** The cart handlers: read a user's cart, add a product to it, overwrite a
    quantity, remove a product. Each loads the user's cart document, changes
    the loaded copy in place and saves it back. */
module CartController {

  import opened Common
  import opened CartSchema
  import opened CartItems
  import opened Store

  /** A cart document as loaded from the store, changed in place before `save`. */
  class Cart {
    var user: UserId
    var items: seq<LineItem>
    var createdAt: Millis
    var updatedAt: Millis

    /** The document `save` writes. */
    function Doc(): CartDoc
      reads this
    {
      CartDoc(user, items, createdAt, updatedAt)
    }

    constructor Load(doc: CartDoc)
      ensures Doc() == doc
    {
      user, items, createdAt, updatedAt := doc.user, doc.items, doc.createdAt, doc.updatedAt;
    }

    /** `items.find(...)`: the position of the product's first entry, scanning from the start. */
    method Find(product: ProductId) returns (index: Option<nat>)
      ensures index == IndexOf(items, product)
    {
      var i := 0;
      while i < |items|
        invariant 0 <= i <= |items|
        invariant forall j :: 0 <= j < i ==> items[j].product != product
      {
        if items[i].product == product {
          return Some(i);
        }
        i := i + 1;
      }
      return None;
    }

    /** `existingCartItem.quantity += amount`. */
    method AddQuantity(i: nat, amount: int)
      requires i < |items|
      modifies this
      ensures items == old(items)[i := LineItem(old(items)[i].product, old(items)[i].quantity + amount)]
      ensures user == old(user) && createdAt == old(createdAt) && updatedAt == old(updatedAt)
    {
      items := items[i := LineItem(items[i].product, items[i].quantity + amount)];
    }

    /** `existingCartItem.quantity = quantity`. */
    method SetQuantity(i: nat, quantity: int)
      requires i < |items|
      modifies this
      ensures items == old(items)[i := LineItem(old(items)[i].product, quantity)]
      ensures user == old(user) && createdAt == old(createdAt) && updatedAt == old(updatedAt)
    {
      items := items[i := LineItem(items[i].product, quantity)];
    }

    /** `cart.items.push(item)`. */
    method Push(item: LineItem)
      modifies this
      ensures items == old(items) + [item]
      ensures user == old(user) && createdAt == old(createdAt) && updatedAt == old(updatedAt)
    {
      items := items + [item];
    }

    /** `cart.items = cart.items.filter(item => item.product.toString() !== product)`. */
    method RemoveProduct(product: ProductId)
      modifies this
      ensures items == Without(old(items), product)
      ensures user == old(user) && createdAt == old(createdAt) && updatedAt == old(updatedAt)
    {
      var all, kept := items, [];
      var i := 0;
      while i < |all|
        invariant 0 <= i <= |all|
        invariant kept == Without(all[..i], product)
        invariant unchanged(this)
      {
        WithoutAppend(all[..i], all[i], product);
        assert all[..i + 1] == all[..i] + [all[i]];
        if all[i].product != product {
          kept := kept + [all[i]];
        }
        i := i + 1;
      }
      assert all[..i] == all;
      items := kept;
    }

    /** `cart.items = []`. */
    method Clear()
      modifies this
      ensures items == []
      ensures user == old(user) && createdAt == old(createdAt) && updatedAt == old(updatedAt)
    {
      items := [];
    }
  }

  /** The body `getCart` sends: a success flag and the cart, or null. */
  datatype CartView = CartView(success: bool, data: Option<CartDoc>)

  /** `getCart`: always a success; a user without a cart gets a null cart, not a 404. */
  function GetCart(carts: map<UserId, CartDoc>, user: UserId): (r: Reply<CartView>)
    ensures r.Success? && r.status == OK && r.body.success
    ensures r.body.data.Some? <==> user in carts
    ensures user in carts ==> r.body.data.value == carts[user]
  {
    Success(OK, CartView(true, if user in carts then Some(carts[user]) else None))
  }

  /** `addToCart`. An unknown product is refused before the cart is read; a
      user without a cart gets a new one holding just this entry; otherwise
      the entry for the product grows by `quantity` or is appended. An
      omitted quantity (None) takes the schema default on a new entry, but
      added to an existing one it gives NaN, which `save` refuses. */
  method AddToCart(db: Db, user: UserId, product: ProductId, quantity: Option<int>, now: Millis)
    returns (reply: Reply<CartDoc>)
    requires db.Valid()
    modifies db
    ensures db.Valid()
    ensures db.products == old(db.products) && db.orders == old(db.orders)
    ensures db.placed == old(db.placed) && db.users == old(db.users)
    ensures product !in old(db.products) ==>
      reply == Failure(NOT_FOUND, "Product not found.") && db.carts == old(db.carts)
    ensures product in old(db.products) && user !in old(db.carts) ==>
      var created := CartDoc(user, [LineItem(product, QuantityOrDefault(quantity))], now, now);
      reply == Success(CREATED, created) && db.carts == old(db.carts)[user := created]
    ensures product in old(db.products) && user in old(db.carts) && quantity.None?
              && IndexOf(old(db.carts)[user].items, product).Some? ==>
      reply == Failure(SERVER_ERROR, "Server error.") && db.carts == old(db.carts)
    ensures product in old(db.products) && user in old(db.carts)
              && (quantity.Some? || IndexOf(old(db.carts)[user].items, product).None?) ==>
      var cart := old(db.carts)[user];
      var saved := cart.(items := AddLine(cart.items, product, QuantityOrDefault(quantity)));
      reply == Success(OK, saved) && db.carts == old(db.carts)[user := saved]
  {
    if product !in db.products {
      return Failure(NOT_FOUND, "Product not found.");
    }
    if user !in db.carts {
      var doc := NewCart(CartInput(Some(user), [LineItemInput(Some(product), quantity)]), now);
      NewSingleItemCart(user, product, quantity, now);
      var newCart := new Cart.Load(doc.value);
      db.carts := db.carts[user := newCart.Doc()];
      return Success(CREATED, newCart.Doc());
    }
    var cart := new Cart.Load(db.carts[user]);
    var existing := cart.Find(product);
    if existing.Some? && quantity.None? {
      // `quantity += undefined` is NaN, which the Number cast rejects on `save`
      return Failure(SERVER_ERROR, "Server error.");
    }
    var amount := QuantityOrDefault(quantity);
    if existing.Some? {
      cart.AddQuantity(existing.value, amount);
    } else {
      cart.Push(LineItem(product, amount));
    }
    AddLineNoDuplicates(db.carts[user].items, product, amount);
    db.carts := db.carts[user := cart.Doc()];
    reply := Success(OK, cart.Doc());
  }

  /** `updateCart`: 404 without a cart or without an entry for the product;
      otherwise that entry's quantity is overwritten, with no lower bound.
      An omitted quantity fails the `required` validator on `save`. */
  method UpdateCart(db: Db, user: UserId, product: ProductId, quantity: Option<int>)
    returns (reply: Reply<CartDoc>)
    requires db.Valid()
    modifies db
    ensures db.Valid()
    ensures db.products == old(db.products) && db.orders == old(db.orders)
    ensures db.placed == old(db.placed) && db.users == old(db.users)
    ensures user !in old(db.carts) ==>
      reply == Failure(NOT_FOUND, "Cart not found.") && db.carts == old(db.carts)
    ensures user in old(db.carts) && IndexOf(old(db.carts)[user].items, product).None? ==>
      reply == Failure(NOT_FOUND, "Item not found in cart.") && db.carts == old(db.carts)
    ensures user in old(db.carts) && IndexOf(old(db.carts)[user].items, product).Some? && quantity.None? ==>
      reply == Failure(SERVER_ERROR, "Server error.") && db.carts == old(db.carts)
    ensures user in old(db.carts) && IndexOf(old(db.carts)[user].items, product).Some? && quantity.Some? ==>
      var cart := old(db.carts)[user];
      var saved := cart.(items := SetLine(cart.items, product, quantity.value));
      reply == Success(OK, saved) && db.carts == old(db.carts)[user := saved]
  {
    if user !in db.carts {
      return Failure(NOT_FOUND, "Cart not found.");
    }
    var cart := new Cart.Load(db.carts[user]);
    var existing := cart.Find(product);
    if existing.None? {
      return Failure(NOT_FOUND, "Item not found in cart.");
    }
    if quantity.None? {
      return Failure(SERVER_ERROR, "Server error.");
    }
    cart.SetQuantity(existing.value, quantity.value);
    SetLineNoDuplicates(db.carts[user].items, product, quantity.value);
    db.carts := db.carts[user := cart.Doc()];
    reply := Success(OK, cart.Doc());
  }

  /** `removeFromCart`: 404 without a cart; otherwise every entry of the
      product is filtered out, which is no change when it has none. */
  method RemoveFromCart(db: Db, user: UserId, product: ProductId)
    returns (reply: Reply<CartDoc>)
    requires db.Valid()
    modifies db
    ensures db.Valid()
    ensures db.products == old(db.products) && db.orders == old(db.orders)
    ensures db.placed == old(db.placed) && db.users == old(db.users)
    ensures user !in old(db.carts) ==>
      reply == Failure(NOT_FOUND, "Cart not found.") && db.carts == old(db.carts)
    ensures user in old(db.carts) ==>
      var cart := old(db.carts)[user];
      var saved := cart.(items := Without(cart.items, product));
      reply == Success(OK, saved) && db.carts == old(db.carts)[user := saved]
  {
    if user !in db.carts {
      return Failure(NOT_FOUND, "Cart not found.");
    }
    var cart := new Cart.Load(db.carts[user]);
    cart.RemoveProduct(product);
    WithoutNoDuplicates(db.carts[user].items, product);
    db.carts := db.carts[user := cart.Doc()];
    reply := Success(OK, cart.Doc());
  }
}
