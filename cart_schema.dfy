/** The cart schema: a cart belongs to one user and holds line items, each a
    product reference with a quantity; the two timestamps default to the
    creation time. */
module CartSchema {

  import opened Common

  const DEFAULT_QUANTITY := 1

  /** A line item. `quantity` has no minimum or maximum in the schema. */
  datatype LineItem = LineItem(product: ProductId, quantity: int)

  /** A stored cart. Neither timestamp is touched after creation: the schema
      has no timestamps option, only defaults. */
  datatype CartDoc = CartDoc(user: UserId, items: seq<LineItem>, createdAt: Millis, updatedAt: Millis)

  /** Line-item fields as they reach the model; None is an omitted field. */
  datatype LineItemInput = LineItemInput(product: Option<ProductId>, quantity: Option<int>)

  /** Cart fields as they reach the model. */
  datatype CartInput = CartInput(user: Option<UserId>, items: seq<LineItemInput>)

  /** The quantity a line item is stored with: the given one, or the default when omitted. */
  function QuantityOrDefault(quantity: Option<int>): int {
    if quantity.Some? then quantity.value else DEFAULT_QUANTITY
  }

  /** One line item after defaults and validation: the product reference is
      required; an omitted quantity becomes 1 and any given quantity is kept,
      zero and negative ones included. */
  function NewLineItem(input: LineItemInput): (r: Option<LineItem>)
    ensures r.Some? <==> input.product.Some?
    ensures r.Some? ==> r.value.product == input.product.value
    ensures r.Some? && input.quantity.None? ==> r.value.quantity == DEFAULT_QUANTITY
    ensures r.Some? && input.quantity.Some? ==> r.value.quantity == input.quantity.value
  {
    if input.product.None? then None
    else if input.quantity.None? then Some(LineItem(input.product.value, DEFAULT_QUANTITY))
    else Some(LineItem(input.product.value, input.quantity.value))
  }

  /** All line items after defaults, or None when one lacks its product. */
  function NewLineItems(inputs: seq<LineItemInput>): (r: Option<seq<LineItem>>)
    ensures r.Some? <==> forall i :: 0 <= i < |inputs| ==> inputs[i].product.Some?
    ensures r.Some? ==>
      && |r.value| == |inputs|
      && forall i :: 0 <= i < |inputs| ==> Some(r.value[i]) == NewLineItem(inputs[i])
  {
    if inputs == [] then Some([])
    else
      var first, rest := NewLineItem(inputs[0]), NewLineItems(inputs[1..]);
      if first.Some? && rest.Some? then Some([first.value] + rest.value) else None
  }

  /** `new CartModel({...})` followed by validation: the owning user is
      required, every line item is validated, both timestamps are `now`. */
  function NewCart(input: CartInput, now: Millis): (r: Option<CartDoc>)
    ensures r.Some? <==> input.user.Some? && NewLineItems(input.items).Some?
    ensures r.Some? ==>
      && r.value.user == input.user.value
      && Some(r.value.items) == NewLineItems(input.items)
      && r.value.createdAt == now && r.value.updatedAt == now
  {
    if input.user.None? then None
    else
      match NewLineItems(input.items)
      case None => None
      case Some(items) => Some(CartDoc(input.user.value, items, now, now))
  }

  /** A cart created with one line item holds exactly that item, with its
      quantity or, when omitted, the default 1. */
  lemma NewSingleItemCart(user: UserId, product: ProductId, quantity: Option<int>, now: Millis)
    ensures NewCart(CartInput(Some(user), [LineItemInput(Some(product), quantity)]), now)
      == Some(CartDoc(user, [LineItem(product, QuantityOrDefault(quantity))], now, now))
  {
    var inputs := [LineItemInput(Some(product), quantity)];
    var item := LineItem(product, QuantityOrDefault(quantity));
    assert NewLineItems(inputs[1..]) == Some([]) by { assert inputs[1..] == []; }
    assert NewLineItem(inputs[0]) == Some(item);
    assert [item] + [] == [item];
    assert NewLineItems(inputs) == Some([item]);
  }

  /** A quantity is never refused by the schema: 0 and negative values pass. */
  lemma AnyQuantityAccepted(user: UserId, product: ProductId, quantity: int, now: Millis)
    ensures NewCart(CartInput(Some(user), [LineItemInput(Some(product), Some(quantity))]), now)
      == Some(CartDoc(user, [LineItem(product, quantity)], now, now))
  {
    NewSingleItemCart(user, product, Some(quantity), now);
  }
}
