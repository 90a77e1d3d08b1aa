/** The catalog handlers of the admin interface: create a product, list the
    catalog a page at a time, read one product, patch a product field by
    field, delete a product. */
module AdminController {

  import opened Common
  import opened Text
  import opened ProductSchema
  import opened Store
  import opened Listing

  /** The validator messages, in the order of the failures they describe.
      `describe` stands for the message templates of the validation library. */
  function Messages(errors: seq<FieldError>, describe: FieldError -> string): (r: seq<string>)
    ensures |r| == |errors|
    ensures forall i :: 0 <= i < |errors| ==> r[i] == describe(errors[i])
  {
    if errors == [] then [] else [describe(errors[0])] + Messages(errors[1..], describe)
  }

  /** `addProduct`. `id` is the id the new document receives. A validation
      failure is answered with 400 and every message joined by ", "; any
      other failure of `save`, here a duplicate id, with 500. */
  method AddProduct(db: Db, input: ProductInput, id: ProductId, now: Millis, describe: FieldError -> string)
    returns (reply: Reply<Product>)
    requires db.Valid()
    modifies db
    ensures db.Valid()
    ensures db.carts == old(db.carts) && db.orders == old(db.orders)
    ensures db.placed == old(db.placed) && db.users == old(db.users)
    ensures NewProduct(input, now).Rejected? ==>
      && reply == Failure(BAD_REQUEST, Join(Messages(ProductErrors(input), describe), ", "))
      && db.products == old(db.products)
    ensures NewProduct(input, now).Accepted? && id in old(db.products) ==>
      reply == Failure(SERVER_ERROR, "Server error") && db.products == old(db.products)
    ensures NewProduct(input, now).Accepted? && id !in old(db.products) ==>
      && reply == Success(CREATED, NewProduct(input, now).value)
      && db.products == old(db.products)[id := NewProduct(input, now).value]
  {
    var product := NewProduct(input, now);
    if product.Rejected? {
      return Failure(BAD_REQUEST, Join(Messages(product.errors, describe), ", "));
    }
    if id in db.products {
      return Failure(SERVER_ERROR, "Server error");
    }
    db.products := db.products[id := product.value];
    reply := Success(CREATED, product.value);
  }

  /** The filter `getProducts` hands to the store: the name matches the
      search pattern and the price lies in [min, max], both ends included.
      `matches` stands for the case-insensitive regular-expression test. */
  function ProductFilter(q: Query, matches: (string, string) -> bool): Product -> bool {
    (p: Product) => matches(q.search, p.name) && q.min as real <= p.price <= q.max as real
  }

  /** `getProducts`. `sorted` is the walk of the store in the order the
      requested sort puts it: every stored id, each once. */
  function GetProducts(products: map<ProductId, Product>, sorted: seq<ProductId>, params: Params,
                       matches: (string, string) -> bool)
    : (r: Reply<Page<Product>>)
    requires ListsEveryKey(sorted, products)
    ensures var q := Resolve(params, "name");
      r == ListPage(InOrder(sorted, products), ProductFilter(q, matches), q, "No products found")
    ensures var q := Resolve(params, "name");
      r.Success? ==> r.body.count == CountMatching(products, ProductFilter(q, matches))
    ensures var q := Resolve(params, "name");
      r.Success? ==> forall p :: p in r.body.items ==>
        && p in products.Values
        && matches(q.search, p.name)
        && q.min as real <= p.price <= q.max as real
    ensures r.Success? ==> 0 < |r.body.items| <= Abs(r.body.limit) && r.body.totalPages == CeilDiv(r.body.count, r.body.limit)
    ensures r.Failure? ==> r == Failure(NOT_FOUND, "No products found") || r == Failure(SERVER_ERROR, "Server error")
  {
    var q := Resolve(params, "name");
    var docs := InOrder(sorted, products);
    CountOfEveryKey(sorted, products, ProductFilter(q, matches));
    assert forall p :: p in docs ==> p in products.Values;
    ListPage(docs, ProductFilter(q, matches), q, "No products found")
  }

  /** `getOneProduct`. */
  function GetOneProduct(products: map<ProductId, Product>, id: ProductId): (r: Reply<Product>)
    ensures id !in products ==> r == Failure(NOT_FOUND, "Product not found")
    ensures id in products ==> r == Success(OK, products[id])
  {
    if id in products then Success(OK, products[id]) else Failure(NOT_FOUND, "Product not found")
  }

  /** The fields of an `updateProduct` body; None is a field the body lacks. */
  datatype ProductPatch = ProductPatch(
    name: Option<string>,
    description: Option<string>,
    image: Option<string>,
    price: Option<real>)

  /** The four assignments of `updateProduct`: each field takes the supplied
      value when it is truthy, through the field's setter, and keeps its own
      value otherwise. */
  function MergeProduct(p: Product, patch: ProductPatch): (r: Product)
    ensures r.category == p.category && r.brand == p.brand && r.countInStock == p.countInStock
    ensures r.ratings == p.ratings && r.numReviews == p.numReviews
    ensures r.createdAt == p.createdAt && r.updatedAt == p.updatedAt
    ensures r.price == 0.0 ==> p.price == 0.0
    ensures TruthyString(patch.image) ==> r.image == patch.image.value
    ensures !TruthyString(patch.image) ==> r.image == p.image
    ensures TruthyNumber(patch.price) ==> r.price == patch.price.value
    ensures !TruthyNumber(patch.price) ==> r.price == p.price
    ensures TruthyString(patch.name) ==> r.name == Trim(patch.name.value)
    ensures !TruthyString(patch.name) ==> r.name == Trim(p.name)
    ensures !TruthyString(patch.name) && Trimmed(p.name) ==> r.name == p.name
    ensures TruthyString(patch.description) ==> r.description == Trim(patch.description.value)
    ensures !TruthyString(patch.description) ==> r.description == Trim(p.description)
    ensures !TruthyString(patch.description) && Trimmed(p.description) ==> r.description == p.description
  {
    p.(name := Trim(OrString(patch.name, p.name)),
       description := Trim(OrString(patch.description, p.description)),
       image := OrString(patch.image, p.image),
       price := OrNumber(patch.price, p.price))
  }

  /** A patch that supplies no truthy field leaves a stored product as it is:
      its name and description are already trimmed. */
  lemma EmptyPatchKeepsProduct(p: Product, patch: ProductPatch)
    requires ValidProduct(p)
    requires !TruthyString(patch.name) && !TruthyString(patch.description)
    requires !TruthyString(patch.image) && !TruthyNumber(patch.price)
    ensures MergeProduct(p, patch) == p
  {
    TrimOfTrimmed(p.name);
    TrimOfTrimmed(p.description);
  }

  /** Sending the same patch twice has the effect of sending it once. */
  lemma MergeProductIdempotent(p: Product, patch: ProductPatch)
    ensures MergeProduct(MergeProduct(p, patch), patch) == MergeProduct(p, patch)
  {
    var once := MergeProduct(p, patch);
    var twice := MergeProduct(once, patch);
    assert twice.name == once.name by {
      if !TruthyString(patch.name) {
        TrimIdempotent(p.name);
      }
    }
    assert twice.description == once.description by {
      if !TruthyString(patch.description) {
        TrimIdempotent(p.description);
      }
    }
  }

  /** A product document loaded for `updateProduct`: the four fields the
      handler assigns, over the stored document. */
  class ProductDocument {
    var stored: Product
    var name: string
    var description: string
    var image: string
    var price: real

    /** The document `save` validates and writes, before timestamps. */
    function Doc(): Product
      reads this
    {
      stored.(name := name, description := description, image := image, price := price)
    }

    constructor Load(p: Product)
      ensures stored == p && Doc() == p
    {
      stored, name, description, image, price := p, p.name, p.description, p.image, p.price;
    }

    /** The four assignments of `updateProduct`, each through the field's
        setter (`trim` on the name and the description). */
    method Assign(patch: ProductPatch)
      modifies this
      ensures stored == old(stored)
      ensures Doc() == MergeProduct(old(Doc()), patch)
    {
      var current := Doc();
      name := Trim(OrString(patch.name, current.name));
      description := Trim(OrString(patch.description, current.description));
      image := OrString(patch.image, current.image);
      price := OrNumber(patch.price, current.price);
    }
  }

  /** `updateProduct`. The merged document is validated as a whole on `save`
      (a failure is the generic 500), and its `updatedAt` becomes `now` only
      when an assignment changed the document. */
  method UpdateProduct(db: Db, id: ProductId, patch: ProductPatch, now: Millis)
    returns (reply: Reply<Product>)
    requires db.Valid()
    modifies db
    ensures db.Valid()
    ensures db.carts == old(db.carts) && db.orders == old(db.orders)
    ensures db.placed == old(db.placed) && db.users == old(db.users)
    ensures id !in old(db.products) ==>
      reply == Failure(NOT_FOUND, "Product not found") && db.products == old(db.products)
    ensures id in old(db.products) && !ValidProduct(MergeProduct(old(db.products)[id], patch)) ==>
      reply == Failure(SERVER_ERROR, "Server error") && db.products == old(db.products)
    ensures id in old(db.products) && ValidProduct(MergeProduct(old(db.products)[id], patch)) ==>
      var p := old(db.products)[id];
      var merged := MergeProduct(p, patch);
      var saved := merged.(updatedAt := if merged == p then p.updatedAt else now);
      reply == Success(OK, saved) && db.products == old(db.products)[id := saved]
  {
    if id !in db.products {
      return Failure(NOT_FOUND, "Product not found");
    }
    var p := db.products[id];
    var doc := new ProductDocument.Load(p);
    doc.Assign(patch);
    var updated := doc.Doc();
    if !ValidProduct(updated) {
      return Failure(SERVER_ERROR, "Server error");
    }
    if updated != p {
      updated := updated.(updatedAt := now);
    }
    db.products := db.products[id := updated];
    reply := Success(OK, updated);
  }

  /** `deleteProduct`. */
  method DeleteProduct(db: Db, id: ProductId) returns (reply: Reply<string>)
    requires db.Valid()
    modifies db
    ensures db.Valid()
    ensures db.carts == old(db.carts) && db.orders == old(db.orders)
    ensures db.placed == old(db.placed) && db.users == old(db.users)
    ensures id !in old(db.products) ==>
      reply == Failure(NOT_FOUND, "Product not found") && db.products == old(db.products)
    ensures id in old(db.products) ==>
      reply == Success(OK, "Product removed") && db.products == old(db.products) - {id}
  {
    if id !in db.products {
      return Failure(NOT_FOUND, "Product not found");
    }
    db.products := db.products - {id};
    reply := Success(OK, "Product removed");
  }
}
