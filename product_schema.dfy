/** The product schema of the catalog: each field's required flag, range,
    length limit, enumeration, trim setter and default, as a validity predicate
    on stored products and a constructor that normalises request fields and
    reports the failing validators. */
module ProductSchema {

  import opened Common
  import opened Text

  const NAME_MAX_LENGTH := 100
  const DESCRIPTION_MAX_LENGTH := 1000
  const BRAND_MAX_LENGTH := 100
  const REVIEW_MAX_LENGTH := 1000
  const MIN_RATING := 1
  const MAX_RATING := 5
  const MAX_STOCK := 100

  datatype Category = Blender | Toaster | CoffeeMaker | FoodProcessor | Juicer | Mixer

  const DEFAULT_CATEGORY := Blender

  /** The stored spelling of each category. */
  function CategoryName(c: Category): string {
    match c
    case Blender => "Blender"
    case Toaster => "Toaster"
    case CoffeeMaker => "Coffee Maker"
    case FoodProcessor => "Food Processor"
    case Juicer => "Juicer"
    case Mixer => "Mixer"
  }

  /** The `enum` validator: a string names a category exactly when it is one of the six spellings. */
  function ParseCategory(s: string): (r: Option<Category>)
    ensures r.Some? ==> CategoryName(r.value) == s
    ensures r.None? ==> forall c: Category :: CategoryName(c) != s
  {
    if s == "Blender" then Some(Blender)
    else if s == "Toaster" then Some(Toaster)
    else if s == "Coffee Maker" then Some(CoffeeMaker)
    else if s == "Food Processor" then Some(FoodProcessor)
    else if s == "Juicer" then Some(Juicer)
    else if s == "Mixer" then Some(Mixer)
    else None
  }

  /** Every category is read back from its spelling. */
  lemma CategoryRoundTrip(c: Category)
    ensures ParseCategory(CategoryName(c)) == Some(c)
  {
  }

  /** One entry of a product's `ratings`. */
  datatype Rating = Rating(user: UserId, rating: real, review: string)

  datatype Product = Product(
    name: string,
    description: string,
    category: Category,
    price: real,
    image: string,
    ratings: seq<Rating>,
    numReviews: int,
    brand: string,
    countInStock: int,
    createdAt: Millis,
    updatedAt: Millis)

  /** A rating within [1, 5] with a required review of at most 1000 characters;
      its `user` reference is always present in this model. */
  predicate ValidRating(r: Rating) {
    MIN_RATING as real <= r.rating <= MAX_RATING as real
    && r.review != "" && |r.review| <= REVIEW_MAX_LENGTH
  }

  /** What every stored product satisfies. */
  predicate ValidProduct(p: Product) {
    && p.name != "" && |p.name| <= NAME_MAX_LENGTH && Trimmed(p.name)
    && p.description != "" && |p.description| <= DESCRIPTION_MAX_LENGTH && Trimmed(p.description)
    && p.price >= 0.0
    && p.image != ""
    && (forall i :: 0 <= i < |p.ratings| ==> ValidRating(p.ratings[i]))
    && p.brand != "" && |p.brand| <= BRAND_MAX_LENGTH
    && 0 <= p.countInStock <= MAX_STOCK
  }

  /** The fields `addProduct` passes to the model; None is a field the body lacks. */
  datatype ProductInput = ProductInput(
    name: Option<string>,
    image: Option<string>,
    description: Option<string>,
    brand: Option<string>,
    category: Option<string>,
    price: Option<real>,
    countInStock: Option<int>)

  /** The validators of one string path, required first: a missing or empty
      value fails `required`, a longer one than `maxLength` fails that. */
  function StringError(path: string, v: Option<string>, maxLength: int): (e: Option<FieldError>)
    ensures e.None? <==> v.Some? && v.value != "" && |v.value| <= maxLength
  {
    if v.None? || v.value == "" then Some(Required(path))
    else if |v.value| > maxLength then Some(TooLong(path, maxLength))
    else None
  }

  /** The validators of one number path with a lower and an optional upper bound. */
  function NumberError(path: string, v: Option<real>, min: int, max: Option<int>): (e: Option<FieldError>)
    ensures e.None? <==> v.Some? && v.value >= min as real && (max.Some? ==> v.value <= max.value as real)
  {
    if v.None? then Some(Required(path))
    else if v.value < min as real then Some(BelowMin(path, min))
    else if max.Some? && v.value > max.value as real then Some(AboveMax(path, max.value))
    else None
  }

  /** The validators of `category` after its default: required, then the enumeration. */
  function CategoryError(v: string): (e: Option<FieldError>)
    ensures e.None? <==> ParseCategory(v).Some?
  {
    if v == "" then Some(Required("category"))
    else if ParseCategory(v).None? then Some(NotInEnum("category", v))
    else None
  }

  /** The `trim: true` setter applied to a field that may be missing. */
  function TrimField(v: Option<string>): (r: Option<string>)
    ensures r.Some? <==> v.Some?
    ensures r.Some? ==> r.value == Trim(v.value)
  {
    if v.Some? then Some(Trim(v.value)) else None
  }

  /** The `required` validator alone: a missing or empty string fails it. */
  function RequiredError(path: string, v: Option<string>): (e: Option<FieldError>)
    ensures e.None? <==> v.Some? && v.value != ""
  {
    if v.None? || v.value == "" then Some(Required(path)) else None
  }

  function AsList(e: Option<FieldError>): seq<FieldError> {
    if e.Some? then [e.value] else []
  }

  function IntAsReal(v: Option<int>): Option<real> {
    if v.Some? then Some(v.value as real) else None
  }

  /** The category after the schema default: a missing field becomes 'Blender'. */
  function CategoryOrDefault(v: Option<string>): (s: string)
    ensures v.None? ==> s == CategoryName(DEFAULT_CATEGORY)
    ensures v.Some? ==> s == v.value
  {
    if v.Some? then v.value else CategoryName(DEFAULT_CATEGORY)
  }

  /** The failing validators, at most one per path, in schema path order. */
  function ProductErrors(input: ProductInput): seq<FieldError> {
    AsList(StringError("name", TrimField(input.name), NAME_MAX_LENGTH))
    + AsList(StringError("description", TrimField(input.description), DESCRIPTION_MAX_LENGTH))
    + AsList(CategoryError(CategoryOrDefault(input.category)))
    + AsList(NumberError("price", input.price, 0, None))
    + AsList(RequiredError("image", input.image))
    + AsList(StringError("brand", input.brand, BRAND_MAX_LENGTH))
    + AsList(NumberError("countInStock", IntAsReal(input.countInStock), 0, Some(MAX_STOCK)))
  }

  /** `new ProductModel({...})` followed by validation: trimmed name and
      description, the default category, no ratings, zero reviews and both
      timestamps at `now` when every validator passes; otherwise the failures. */
  function NewProduct(input: ProductInput, now: Millis): (r: Checked<Product>)
    ensures r.Rejected? <==> ProductErrors(input) != []
    ensures r.Rejected? ==> r.errors == ProductErrors(input)
    ensures r.Accepted? ==> ValidProduct(r.value)
    ensures r.Accepted? ==>
      && input.name.Some? && r.value.name == Trim(input.name.value)
      && input.description.Some? && r.value.description == Trim(input.description.value)
      && Some(r.value.category) == ParseCategory(CategoryOrDefault(input.category))
      && input.price == Some(r.value.price)
      && input.image == Some(r.value.image)
      && input.brand == Some(r.value.brand)
      && input.countInStock == Some(r.value.countInStock)
      && r.value.ratings == [] && r.value.numReviews == 0
      && r.value.createdAt == now && r.value.updatedAt == now
  {
    var errors := ProductErrors(input);
    if errors != [] then Rejected(errors)
    else
      Accepted(Product(
        Trim(input.name.value), Trim(input.description.value),
        ParseCategory(CategoryOrDefault(input.category)).value,
        input.price.value, input.image.value, [], 0, input.brand.value,
        input.countInStock.value, now, now))
  }

  /** The same acceptance condition, stated field by field on the request. */
  predicate AcceptableInput(input: ProductInput) {
    && input.name.Some? && Trim(input.name.value) != "" && |Trim(input.name.value)| <= NAME_MAX_LENGTH
    && input.description.Some? && Trim(input.description.value) != ""
    && |Trim(input.description.value)| <= DESCRIPTION_MAX_LENGTH
    && (input.category.None? || ParseCategory(input.category.value).Some?)
    && input.price.Some? && input.price.value >= 0.0
    && input.image.Some? && input.image.value != ""
    && input.brand.Some? && input.brand.value != "" && |input.brand.value| <= BRAND_MAX_LENGTH
    && input.countInStock.Some? && 0 <= input.countInStock.value <= MAX_STOCK
  }

  /** A product is created exactly when every field meets its constraint;
      a blank name or description is refused because trimming empties it. */
  lemma NewProductAcceptance(input: ProductInput, now: Millis)
    ensures NewProduct(input, now).Accepted? <==> AcceptableInput(input)
  {
    var errors := ProductErrors(input);
    if AcceptableInput(input) {
      assert errors == [];
    }
  }
}
