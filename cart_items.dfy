/** What the cart handlers do to a cart's line items: find the entry of a
    product, add to it or append one, overwrite its quantity, filter it out.
    `QuantityOf` reads a line-item sequence as the amount ordered of each
    product; the lemmas state each operation in those terms and show that
    none of them introduces a second entry for a product. */
module CartItems {

  import opened Common
  import opened CartSchema

  /** No product has two entries. */
  predicate NoDuplicates(items: seq<LineItem>) {
    forall i, j :: 0 <= i < j < |items| ==> items[i].product != items[j].product
  }

  /** `items.find(item => item.product.toString() === product)`, as an index:
      the first entry for the product, or None when there is none. */
  function IndexOf(items: seq<LineItem>, product: ProductId): (r: Option<nat>)
    ensures r.Some? ==>
      && r.value < |items| && items[r.value].product == product
      && forall j :: 0 <= j < r.value ==> items[j].product != product
    ensures r.None? <==> forall j :: 0 <= j < |items| ==> items[j].product != product
  {
    if items == [] then None
    else if items[0].product == product then Some(0)
    else
      match IndexOf(items[1..], product)
      case None => None
      case Some(k) => Some(k + 1)
  }

  /** An entry for the product with none before it is the one `IndexOf` finds. */
  lemma IndexOfFirst(items: seq<LineItem>, product: ProductId, i: nat)
    requires i < |items| && items[i].product == product
    requires forall j :: 0 <= j < i ==> items[j].product != product
    ensures IndexOf(items, product) == Some(i)
  {
    var r := IndexOf(items, product);
    assert r.Some?;
    if r.value != i {
      assert false;
    }
  }

  /** The total quantity the entries of `product` carry (0 when it has none). */
  function QuantityOf(items: seq<LineItem>, product: ProductId): int {
    if items == [] then 0
    else (if items[0].product == product then items[0].quantity else 0) + QuantityOf(items[1..], product)
  }

  /** The add step of `addToCart` on an existing cart: the product's first
      entry grows by `quantity`, or a new entry is appended at the end. */
  function AddLine(items: seq<LineItem>, product: ProductId, quantity: int): (r: seq<LineItem>)
    ensures IndexOf(items, product).None? ==> r == items + [LineItem(product, quantity)]
    ensures IndexOf(items, product).Some? ==>
      var i := IndexOf(items, product).value;
      && |r| == |items|
      && r[i] == LineItem(product, items[i].quantity + quantity)
      && forall j :: 0 <= j < |items| && j != i ==> r[j] == items[j]
  {
    match IndexOf(items, product)
    case None => items + [LineItem(product, quantity)]
    case Some(i) => items[i := LineItem(product, items[i].quantity + quantity)]
  }

  /** The overwrite step of `updateCart`: the product's first entry takes the
      given quantity, whatever its sign; a product without entry changes nothing. */
  function SetLine(items: seq<LineItem>, product: ProductId, quantity: int): (r: seq<LineItem>)
    ensures IndexOf(items, product).None? ==> r == items
    ensures IndexOf(items, product).Some? ==>
      var i := IndexOf(items, product).value;
      && |r| == |items|
      && r[i] == LineItem(product, quantity)
      && forall j :: 0 <= j < |items| && j != i ==> r[j] == items[j]
  {
    match IndexOf(items, product)
    case None => items
    case Some(i) => items[i := LineItem(product, quantity)]
  }

  /** The predicate `removeFromCart` filters by. */
  function OtherThan(product: ProductId): LineItem -> bool {
    (item: LineItem) => item.product != product
  }

  /** The filter step of `removeFromCart`: the entries of other products, in
      their original order. */
  function Without(items: seq<LineItem>, product: ProductId): (r: seq<LineItem>)
    ensures forall x :: x in r <==> x in items && x.product != product
    ensures |r| <= |items|
  {
    Filter(items, OtherThan(product))
  }

  lemma {:induction false} QuantityOfAppend(a: seq<LineItem>, b: seq<LineItem>, product: ProductId)
    ensures QuantityOf(a + b, product) == QuantityOf(a, product) + QuantityOf(b, product)
  {
    if a != [] {
      assert (a + b)[1..] == a[1..] + b;
      QuantityOfAppend(a[1..], b, product);
    } else {
      assert a + b == b;
    }
  }

  /** Replacing one entry replaces its share of the total. */
  lemma {:induction false} QuantityOfUpdate(items: seq<LineItem>, i: nat, item: LineItem, product: ProductId)
    requires i < |items|
    ensures QuantityOf(items[i := item], product)
      == QuantityOf(items, product)
         - (if items[i].product == product then items[i].quantity else 0)
         + (if item.product == product then item.quantity else 0)
  {
    if i > 0 {
      assert items[i := item][1..] == items[1..][i - 1 := item];
      QuantityOfUpdate(items[1..], i - 1, item, product);
    }
  }

  /** Without an entry for a product, its total is 0. */
  lemma {:induction false} QuantityOfAbsent(items: seq<LineItem>, product: ProductId)
    requires forall j :: 0 <= j < |items| ==> items[j].product != product
    ensures QuantityOf(items, product) == 0
  {
    if items != [] {
      QuantityOfAbsent(items[1..], product);
    }
  }

  /** Without duplicates, a product's total is the quantity of its one entry. */
  lemma {:induction false} QuantityOfUnique(items: seq<LineItem>, i: nat)
    requires NoDuplicates(items) && i < |items|
    ensures QuantityOf(items, items[i].product) == items[i].quantity
  {
    var product := items[i].product;
    if i == 0 {
      QuantityOfAbsent(items[1..], product);
    } else {
      QuantityOfUnique(items[1..], i - 1);
    }
  }

  /** Adding grows the added product's total by exactly `quantity` and leaves
      every other product's total as it was. */
  lemma AddLineQuantity(items: seq<LineItem>, product: ProductId, quantity: int, other: ProductId)
    ensures QuantityOf(AddLine(items, product, quantity), other)
      == QuantityOf(items, other) + (if other == product then quantity else 0)
  {
    match IndexOf(items, product)
    case None =>
      QuantityOfAppend(items, [LineItem(product, quantity)], other);
      assert [LineItem(product, quantity)][1..] == [];
    case Some(i) =>
      QuantityOfUpdate(items, i, LineItem(product, items[i].quantity + quantity), other);
  }

  /** Adding the same product twice is adding the sum once. */
  lemma AddLineTwice(items: seq<LineItem>, product: ProductId, a: int, b: int)
    ensures AddLine(AddLine(items, product, a), product, b) == AddLine(items, product, a + b)
  {
    var once := AddLine(items, product, a);
    match IndexOf(items, product)
    case None =>
      assert once == items + [LineItem(product, a)];
      IndexOfFirst(once, product, |items|);
      assert once[|items| := LineItem(product, a + b)] == items + [LineItem(product, a + b)];
    case Some(i) =>
      assert once == items[i := LineItem(product, items[i].quantity + a)];
      IndexOfFirst(once, product, i);
      assert once[i].quantity == items[i].quantity + a;
      var twice := once[i := LineItem(product, once[i].quantity + b)];
      assert twice == items[i := LineItem(product, items[i].quantity + (a + b))] by {
        assert |twice| == |items|;
        forall j | 0 <= j < |items| ensures twice[j] == items[i := LineItem(product, items[i].quantity + (a + b))][j] {
        }
      }
  }

  /** Overwriting sets the product's total to `quantity` when it has one entry,
      and leaves every other product's total as it was. */
  lemma SetLineQuantity(items: seq<LineItem>, product: ProductId, quantity: int, other: ProductId)
    requires NoDuplicates(items) && IndexOf(items, product).Some?
    ensures QuantityOf(SetLine(items, product, quantity), other)
      == if other == product then quantity else QuantityOf(items, other)
  {
    var i := IndexOf(items, product).value;
    QuantityOfUpdate(items, i, LineItem(product, quantity), other);
    if other == product {
      QuantityOfUnique(items, i);
    }
  }

  /** Removing a product zeroes its total and leaves every other product's total. */
  lemma {:induction false} WithoutQuantity(items: seq<LineItem>, product: ProductId, other: ProductId)
    ensures QuantityOf(Without(items, product), other)
      == if other == product then 0 else QuantityOf(items, other)
  {
    if items != [] {
      WithoutQuantity(items[1..], product, other);
      assert Without(items, product)
        == (if items[0].product != product then [items[0]] else []) + Without(items[1..], product);
      QuantityOfAppend(if items[0].product != product then [items[0]] else [], Without(items[1..], product), other);
      if items[0].product != product {
        assert [items[0]][1..] == [];
      }
    }
  }

  /** Removing keeps the entries of other products in their order: filtering a
      longer cart filters the shorter one, then the last entry. */
  lemma WithoutAppend(items: seq<LineItem>, last: LineItem, product: ProductId)
    ensures Without(items + [last], product)
      == Without(items, product) + (if last.product != product then [last] else [])
  {
    FilterAppend(items, last, OtherThan(product));
  }

  /** Removing a product that has no entry changes nothing. */
  lemma WithoutAbsent(items: seq<LineItem>, product: ProductId)
    requires IndexOf(items, product).None?
    ensures Without(items, product) == items
  {
    FilterKeepsAll(items, OtherThan(product));
  }

  /** Removing is idempotent. */
  lemma WithoutIdempotent(items: seq<LineItem>, product: ProductId)
    ensures Without(Without(items, product), product) == Without(items, product)
  {
    FilterIdempotent(items, OtherThan(product));
  }

  /** Adding never creates a second entry for a product. */
  lemma AddLineNoDuplicates(items: seq<LineItem>, product: ProductId, quantity: int)
    requires NoDuplicates(items)
    ensures NoDuplicates(AddLine(items, product, quantity))
  {
  }

  /** Overwriting never creates a second entry for a product. */
  lemma SetLineNoDuplicates(items: seq<LineItem>, product: ProductId, quantity: int)
    requires NoDuplicates(items)
    ensures NoDuplicates(SetLine(items, product, quantity))
  {
  }

  /** Removing never creates a second entry for a product. */
  lemma {:induction false} WithoutNoDuplicates(items: seq<LineItem>, product: ProductId)
    requires NoDuplicates(items)
    ensures NoDuplicates(Without(items, product))
  {
    if items != [] {
      var rest := Without(items[1..], product);
      WithoutNoDuplicates(items[1..], product);
      assert Without(items, product) == (if items[0].product != product then [items[0]] else []) + rest;
      if items[0].product != product {
        forall j | 0 <= j < |rest| ensures rest[j].product != items[0].product {
          assert rest[j] in items[1..];
        }
      }
    }
  }
}
