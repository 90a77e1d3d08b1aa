/** The document stores, each a map from document id to document, and the
    invariants every handler keeps: one cart per user, filed under its owner,
    never with two entries for one product; every product and every order
    passes its schema. */
module Store {

  import opened Common
  import opened ProductSchema
  import opened CartSchema
  import opened CartItems
  import opened OrderSchema
  import opened UserSchema

  class Db {
    var products: map<ProductId, Product>
    /** Carts are looked up by their owner, so the key is the owning user. */
    var carts: map<UserId, CartDoc>
    /** Orders of the order schema, which the admin listing and update serve. */
    var orders: map<OrderId, Order>
    /** The records checkout creates. */
    var placed: map<OrderId, PlacedOrder>
    var users: map<UserId, User>

    ghost predicate Valid()
      reads this
    {
      && (forall u :: u in carts ==> carts[u].user == u && NoDuplicates(carts[u].items))
      && (forall p :: p in products ==> ValidProduct(products[p]))
      && (forall o :: o in orders ==> ValidOrder(orders[o]))
    }

    constructor ()
      ensures Valid()
      ensures products == map[] && carts == map[] && orders == map[] && placed == map[] && users == map[]
    {
      products, carts, orders, placed, users := map[], map[], map[], map[], map[];
    }

    /** `UserModel.findOne({ email })`: some user with that email, or None when
        no user has it. Emails are not unique, and which match comes first is
        the store's choice. */
    method FindUserByEmail(email: string) returns (r: Option<UserId>)
      ensures r.Some? ==> r.value in users && users[r.value].email == email
      ensures r.None? ==> forall id :: id in users ==> users[id].email != email
    {
      if id :| id in users && users[id].email == email {
        r := Some(id);
      } else {
        r := None;
      }
    }
  }
}
