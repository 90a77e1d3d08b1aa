# Shop backend: carts, checkout, catalog and account flows

This project is a Dafny model of the core of an Express/Mongoose shop backend:

- **Carts.** Each user has one cart, a sequence of (product, quantity) line items. Adding a product merges it into an existing entry, updating overwrites a quantity, and removing filters entries out.
- **Checkout.** A pending order is stored from the client's items and total, and then the buyer's cart is emptied.
- **Schemas.** The product, cart and order schemas, with their required fields, ranges, enumeration, length limits, trim and lowercase setters, and defaults.
- **Admin catalog and order handlers.** Paging and filter arithmetic for the listings, and the field-by-field "replace when truthy" merges of the updates.
- **Account flows.** The failed-login counter and lockout, the one-hour reset token (issued, then used once), and the partial profile update.

The document stores are maps from id to document, fields of one `Db` object (`store.dfy`). `Db.Valid()` is the invariant every handler keeps:

- a cart is filed under its owner and never holds two entries for one product;
- every stored product and every stored order passes its schema.

Several handlers load a document, assign its fields in place and save it back. Each of those documents is a class (`Cart`, `ProductDocument`, `OrderDocument`, `UserDocument`). The methods of `Cart`, `ProductDocument` and `OrderDocument` carry `modifies` clauses; the fields of a `UserDocument` are assigned directly by the account handlers. A `Doc()` function gives the record that `save` writes. Each handler that changes a store is a module-level method that takes the `Db` and carries `modifies db`; the read-only handlers (`GetCart`, `GetProducts`, `GetOneProduct`, `GetOrders`) are functions of the store map they read. A handler's postcondition states:

- the reply, as a status with a body, or a status with a message;
- the new contents of every store, for every branch the source takes.

Results of foreign calls are parameters of the handler: the clock, the random bytes, the password hash and comparison, issuing and checking access tokens, whether the mail was sent, the id of a new document, the regular-expression test and the validator messages.

Modules, one per file: `Common`, `Text`, `ProductSchema`, `CartSchema`, `OrderSchema`, `UserSchema`, `CartItems`, `Store`, `UserDocuments`, `Listing`, `CartController`, `CheckoutController`, `AdminController`, `OrdersController`, `LoginController`, `ForgotPasswordController`, `ResetPasswordController`, `UpdateProfileController`.

## Model

| member | source | states |
|---|---|---|
| Common.OrString | controllers/admin.ctrl.js:124-126 | `supplied \|\| current` on a string yields the supplied value exactly when it is truthy (present and non-empty) and the current value otherwise, so it is empty only when the current value is |
| Common.OrNumber | controllers/admin.ctrl.js:127 | `supplied \|\| current` on a number yields the supplied value exactly when it is truthy (present and non-zero) and the current value otherwise, so it is 0 only when the current value is 0 and a price cannot be patched to 0 |
| Common.OrArray | controllers/orders.ctrl.js:79 | any supplied array, even an empty one, replaces the current one; otherwise the current one is kept |
| Common.Filter | controllers/cart.ctrl.js:131-133 | the kept elements are exactly those of the input that the predicate accepts, and there are no more of them than input elements |
| Common.FilterAppend | controllers/cart.ctrl.js:131-133 | filtering a sequence extended by one element is filtering the prefix, then keeping the element when it is accepted |
| Common.FilterKeepsAll | controllers/cart.ctrl.js:131-133 | a filter that accepts every element returns the sequence unchanged |
| Common.FilterRejectsAll | controllers/admin.ctrl.js:63-66 | a filter that accepts no element returns the empty sequence |
| Common.FilterIdempotent | controllers/cart.ctrl.js:131-133 | filtering twice by the same predicate is filtering once |
| Text.TrimStart | models/products.model.js:27 | the result is a suffix of the input, all dropped characters are white space, and the result does not start with white space |
| Text.TrimEnd | models/products.model.js:27 | the result is a prefix of the input, all dropped characters are white space, and the result does not end with white space |
| Text.Trim | models/products.model.js:27 | the `trim` setter yields a string with no white space at either end, no longer than the input |
| Text.TrimIsStartThenEnd | models/products.model.js:27 | the setter equals dropping the leading white space and then the trailing white space |
| Text.TrimOfTrimmed | models/products.model.js:24-35 | a string without surrounding white space is left unchanged by the setter |
| Text.TrimIdempotent | models/products.model.js:24-35 | trimming twice is trimming once |
| Text.LowerChar | models/orders.model.js:49 | an upper-case ASCII letter maps to its lower-case letter, every other character to itself, and no result is an upper-case letter |
| Text.Lower | models/orders.model.js:49 | the `lowercase` setter keeps the length and lowers each character |
| Text.LowerIdempotent | models/orders.model.js:46-50 | lowercasing a lowercased email changes nothing |
| Text.Join | controllers/admin.ctrl.js:29 | `join` of no parts is the empty string, and of one part is that part |
| Text.Split | controllers/updateProfile.ctrl.js:26 | `split` yields at least one piece, no piece holds the separator, and joining the pieces with the separator gives the input back |
| Text.SplitJoin | controllers/updateProfile.ctrl.js:26 | splitting a join of separator-free pieces gives the pieces back |
| Text.Piece | controllers/updateProfile.ctrl.js:26 | the i-th piece of `split` exists exactly when there are more than i pieces, and it holds no separator |
| Text.HexDigit | controllers/forgotPassword.ctrl.js:35 | every nibble maps to a lowercase hexadecimal digit |
| Text.DigitValue | controllers/forgotPassword.ctrl.js:35 | a hexadecimal digit has a nibble value that maps back to that digit |
| Text.ToHex | controllers/forgotPassword.ctrl.js:35 | `toString('hex')` gives two lowercase hexadecimal digits per byte |
| Text.HexRoundTrip | controllers/forgotPassword.ctrl.js:35 | the bytes can be read back from their hexadecimal rendering |
| ProductSchema.ParseCategory | models/products.model.js:36-41 | a string is accepted by the enumeration exactly when it is the spelling of one of the six categories, and it then parses to that category |
| ProductSchema.CategoryRoundTrip | models/products.model.js:36-41 | every category reads back from its stored spelling |
| ProductSchema.StringError | models/products.model.js:24-35 | a required string path with a length limit passes exactly when it is present, non-empty and within the limit |
| ProductSchema.NumberError | models/products.model.js:81-86 | a required number path passes exactly when it is present, at least the minimum and, where there is one, at most the maximum |
| ProductSchema.CategoryError | models/products.model.js:36-41 | the category passes exactly when it names one of the six categories |
| ProductSchema.TrimField | models/products.model.js:27 | the setter on a possibly missing field keeps it missing, or trims it |
| ProductSchema.RequiredError | models/products.model.js:47-50 | the image passes exactly when it is present and non-empty |
| ProductSchema.CategoryOrDefault | models/products.model.js:36-41 | a missing category becomes 'Blender'; a given one is kept for validation |
| ProductSchema.NewProduct | models/products.model.js:23-89 | a request is rejected exactly when some validator fails, and then the failures are listed in path order. An accepted product satisfies the product validity predicate: name and description trimmed, at most 100 and 1000 characters; price ≥ 0; stock in [0, 100]; brand at most 100 characters; image present. It has the parsed or default category, no ratings, 0 reviews and both timestamps at the creation time |
| ProductSchema.NewProductAcceptance | models/products.model.js:23-89 | a product is created exactly when every field of the request meets its constraint, so a blank name is refused because trimming empties it |
| CartSchema.NewLineItem | models/cart.model.js:21-32 | a line item is built exactly when it has a product reference; an omitted quantity becomes 1, and a given one is kept |
| CartSchema.NewLineItems | models/cart.model.js:20-33 | the items are built exactly when every item has its product, and then item by item |
| CartSchema.NewCart | models/cart.model.js:14-42 | a cart is built exactly when it has an owner and valid items; both timestamps are the creation time |
| CartSchema.NewSingleItemCart | models/cart.model.js:27-31 | a cart created with one line item holds exactly that item, with the given quantity or the default 1 when it is omitted |
| CartSchema.AnyQuantityAccepted | models/cart.model.js:27-31 | any quantity, 0 and negative ones included, passes the schema unchanged |
| OrderSchema.OrderErrors | models/orders.model.js:36-70 | there are no failures exactly when customerName and customerEmail are present and non-empty and totalPrice is present |
| OrderSchema.NewOrder | models/orders.model.js:21-71 | an order is rejected exactly when a required field fails. Otherwise: the date defaults to the creation time; the email is stored lowercased; the products default to none; the result is a valid order |
| OrderSchema.RestoreStoredOrder | models/orders.model.js:46-50 | re-storing a stored order, whose email is already lowercase, yields the same order |
| CartItems.IndexOf | controllers/cart.ctrl.js:59-61 | `find` gives the position of the product's first entry, or nothing exactly when no entry has the product |
| CartItems.AddLine | controllers/cart.ctrl.js:59-66 | without an entry for the product, one is appended at the end; otherwise its first entry's quantity grows by `quantity` and every other entry is kept |
| CartItems.SetLine | controllers/cart.ctrl.js:95-103 | the product's first entry takes the new quantity, with no lower bound, and nothing else changes |
| CartItems.Without | controllers/cart.ctrl.js:131-133 | the kept entries are exactly those of other products, and are no more than before |
| CartItems.QuantityOfUpdate | controllers/cart.ctrl.js:103 | replacing one entry replaces exactly its share of a product's total |
| CartItems.QuantityOfAbsent | controllers/cart.ctrl.js:65-66 | a product without an entry has total 0 |
| CartItems.QuantityOfUnique | controllers/cart.ctrl.js:59-64 | in a cart without duplicates, a product's total is the quantity of its one entry |
| CartItems.QuantityOfAppend | controllers/cart.ctrl.js:66 | the totals of a concatenation add up |
| CartItems.AddLineQuantity | controllers/cart.ctrl.js:59-66 | adding grows the added product's total by exactly `quantity` and leaves every other product's total |
| CartItems.AddLineTwice | controllers/cart.ctrl.js:59-66 | adding a product twice is adding the sum of both quantities once |
| CartItems.SetLineQuantity | controllers/cart.ctrl.js:103 | in a cart without duplicates, an update sets the product's total to the new quantity and leaves every other total |
| CartItems.WithoutQuantity | controllers/cart.ctrl.js:131-133 | removing a product zeroes its total and leaves every other product's total |
| CartItems.WithoutAppend | controllers/cart.ctrl.js:131-133 | removal keeps the other products' entries in their original order |
| CartItems.WithoutAbsent | controllers/cart.ctrl.js:131-133 | removing a product without an entry changes nothing |
| CartItems.WithoutIdempotent | controllers/cart.ctrl.js:131-133 | removing twice is removing once |
| CartItems.AddLineNoDuplicates | controllers/cart.ctrl.js:59-66 | adding never creates a second entry for a product |
| CartItems.SetLineNoDuplicates | controllers/cart.ctrl.js:103 | updating never creates a second entry for a product |
| CartItems.WithoutNoDuplicates | controllers/cart.ctrl.js:131-133 | removing never creates a second entry for a product |
| Store.Db.FindUserByEmail | controllers/loginUser.ctrl.js:17 | `findOne({ email })` yields a user with that email, or nothing exactly when no user has it |
| CartController.Cart.Find | controllers/cart.ctrl.js:59-61 | the loop over the loaded items finds the first entry of the product, as `IndexOf` defines it |
| CartController.Cart.AddQuantity | controllers/cart.ctrl.js:64 | `quantity += amount` on one entry; owner and timestamps unchanged |
| CartController.Cart.SetQuantity | controllers/cart.ctrl.js:103 | `quantity = quantity` on one entry; owner and timestamps unchanged |
| CartController.Cart.Push | controllers/cart.ctrl.js:66 | `push` appends the entry at the end; owner and timestamps unchanged |
| CartController.Cart.RemoveProduct | controllers/cart.ctrl.js:131-133 | the loop leaves the loaded cart's items as `Without` of the old items |
| CartController.Cart.Clear | controllers/checkout.ctrl.js:39 | the items become empty; owner and timestamps unchanged |
| CartController.GetCart | controllers/cart.ctrl.js:13-30 | always 200 with `success: true`; the data is the user's cart, or null exactly when the user has none |
| CartController.AddToCart | controllers/cart.ctrl.js:41-76 | An unknown product gives 404 and no cart changes. A user without a cart gets 201 and a new cart holding exactly [(product, quantity)], the quantity defaulting to 1. An omitted quantity added to an existing entry gives 500 and no change. Otherwise the reply is 200 and the saved cart is the old one with `AddLine` applied. No store other than the carts changes, and no cart gains a duplicate |
| CartController.UpdateCart | controllers/cart.ctrl.js:86-112 | a missing cart or a missing entry gives its 404 and no change; an omitted quantity gives 500 and no change; otherwise 200 with the entry's quantity overwritten |
| CartController.RemoveFromCart | controllers/cart.ctrl.js:122-142 | a missing cart gives 404; otherwise 200, and the saved cart keeps exactly the other products' entries in order |
| CheckoutController.Checkout | controllers/checkout.ctrl.js:12-47 | Missing items, or a missing or zero total, give 400 and no write; an empty item list is accepted. A used order id gives 500. Otherwise exactly one pending order is stored, holding the client's items and total verbatim. Then a missing cart gives 404 and the order stays stored; else the owner's cart is emptied and the reply is 200 with the order |
| Listing.Resolve | controllers/admin.ctrl.js:45-52 | page and limit fall back to 1 and 10 when missing, not a number or 0; skip = (page-1)*limit; the sort field falls back to the default; the direction is -1 exactly when order is 'desc', otherwise 1; the range falls back to [0, 1000000] |
| Listing.Window | controllers/admin.ctrl.js:59-61 | `skip(skip).limit(limit)` yields the matches from position skip on, at most the absolute value of limit of them, in order, and none past the end |
| Listing.CeilDiv | controllers/admin.ctrl.js:76 | `Math.ceil(count / limit)` is the smallest integer whose multiple of a positive limit reaches count, and the matching bound for a negative limit |
| Listing.ListPage | controllers/orders.ctrl.js:28-55 | A negative skip gives 500 and an empty page gives 404. Otherwise the reply is 200 with: the unpaged count under the filter; the page and limit; totalPages = ceil(count/limit); and the page window of the matches, each of them a stored document the filter accepts |
| Listing.InOrder | controllers/admin.ctrl.js:59-61 | the documents of a walk of ids are the stored documents of those ids, in that order |
| Listing.FilterInOrderCount | controllers/admin.ctrl.js:63-66 | filtering the documents of distinct stored ids leaves as many documents as there are accepted ids |
| Listing.CountOfEveryKey | controllers/admin.ctrl.js:63-66 | over a walk of every stored id once, the filtered documents number exactly `countDocuments` under the same filter |
| Listing.PageRunPrefix | controllers/admin.ctrl.js:59-61 | the first n pages read in order are the prefix of the matches they span |
| Listing.PagesCoverMatches | controllers/admin.ctrl.js:76 | reading pages 1 to totalPages in order yields every match exactly once, in order |
| Listing.EmptyPageIffPastEnd | controllers/admin.ctrl.js:68-70 | for a positive limit and a page from 1 on, the page is empty, so answered with 404, exactly when its number exceeds totalPages |
| Listing.NoMatchesNoPages | controllers/orders.ctrl.js:42-44 | a listing with no match is answered with 404 and has 0 pages |
| AdminController.Messages | controllers/admin.ctrl.js:27-29 | one message per validation failure, in the order of the failures |
| AdminController.AddProduct | controllers/admin.ctrl.js:10-34 | a failed validation gives 400 with all messages joined by ", " and no write; a duplicate id gives 500; otherwise 201 and the new product is stored |
| AdminController.GetProducts | controllers/admin.ctrl.js:44-83 | the catalog listing with sort default 'name', over a sorted walk of every stored product once. Every product returned is stored, matches the search and has its price in [min, max] inclusive. `count` is the number of stored products the filter accepts. There are at most limit of them, and totalPages = ceil(count/limit). The only failures are 404 "No products found" and 500 |
| AdminController.GetOneProduct | controllers/admin.ctrl.js:92-105 | 404 for an unknown id, otherwise 200 with the stored product |
| AdminController.MergeProduct | controllers/admin.ctrl.js:124-127 | Name, description, image and price each take the supplied value when it is truthy (name and description trimmed) and otherwise keep their own (a stored, already trimmed name or description exactly). Category, brand, stock, ratings, review count and timestamps never change. A nonzero price never becomes 0 |
| AdminController.EmptyPatchKeepsProduct | controllers/admin.ctrl.js:124-127 | a patch with no truthy field leaves a stored product exactly as it was |
| AdminController.MergeProductIdempotent | controllers/admin.ctrl.js:124-127 | applying the same patch twice equals applying it once |
| AdminController.ProductDocument.Assign | controllers/admin.ctrl.js:124-127 | the four assignments on the loaded document produce the merge of its old contents |
| AdminController.UpdateProduct | controllers/admin.ctrl.js:116-135 | An unknown id gives 404. A merge that fails the schema gives 500 and no write. Otherwise the merged product is saved and returned with 200; its updatedAt moves to now exactly when the merge changed the document |
| AdminController.DeleteProduct | controllers/admin.ctrl.js:144-158 | 404 for an unknown id and no change; otherwise the product is removed and the reply is 200 |
| OrdersController.GetOrders | controllers/orders.ctrl.js:17-56 | the order listing with sort default 'orderDate', over a sorted walk of every stored order once. Every order returned is stored, matches the search and has its totalPrice in [min, max] inclusive. `count` is the number of stored orders the filter accepts. There are at most limit of them, and totalPages = ceil(count/limit). The only failures are 404 "No orders found" and 500 |
| OrdersController.MergeOrder | controllers/orders.ctrl.js:77-80 | Each field takes the supplied value when it is truthy, with the email lowercased; any supplied products array counts. Otherwise the field keeps its own value; for the email this is stated for a stored order, whose email is already lowercased. The order date never changes, and a valid order stays valid |
| OrdersController.EmptyPatchKeepsOrder | controllers/orders.ctrl.js:77-80 | a patch with no truthy field and no array leaves a stored order exactly as it was |
| OrdersController.MergeOrderIdempotent | controllers/orders.ctrl.js:77-80 | applying the same patch twice equals applying it once |
| OrdersController.OrderDocument.Assign | controllers/orders.ctrl.js:77-80 | the four assignments on the loaded document produce the merge of its old contents |
| OrdersController.UpdateOrder | controllers/orders.ctrl.js:69-88 | 404 for an unknown id and no change; otherwise the merged order is saved and returned with 200 |
| LoginController.AfterWrongPassword | controllers/loginUser.ctrl.js:25-32 | A wrong password adds exactly 1 to the count. A count of 5 or more sets the lock to now + 24 hours, and so does a count of 7 or more: the 12-hour branch is never taken. Below 5 the lock is untouched, and no other field changes |
| LoginController.AfterRightPassword | controllers/loginUser.ctrl.js:39-41 | a right password resets the count to 0 and the lock to null, and changes nothing else |
| LoginController.WrongPasswordRun | controllers/loginUser.ctrl.js:25-35 | a run of n failures adds n to the count; the lock is a day after the last failure exactly when the count reaches 5, and is otherwise unchanged |
| LoginController.FifthFailureLocks | controllers/loginUser.ctrl.js:28-29 | after a successful login, four failures set no lock and the fifth sets it to a day after itself |
| LoginController.LoginUser | controllers/loginUser.ctrl.js:14-52 | An unknown email gives 404 and no change. Otherwise, for a user with that email: a right password gives 201 with a token for that user and resets the counters, even while the user is locked; a wrong password gives 401 and records the failure |
| ForgotPasswordController.Issue | controllers/forgotPassword.ctrl.js:35-39 | the token and an expiry of now + one hour are set, and nothing else changes |
| ForgotPasswordController.ReissueReplaces | controllers/forgotPassword.ctrl.js:37-39 | a second request replaces the first token and expiry, so only the latest is kept |
| ForgotPasswordController.TokenShape | controllers/forgotPassword.ctrl.js:35 | the token is 40 lowercase hexadecimal digits from which the 20 random bytes read back |
| ForgotPasswordController.ForgotPassword | controllers/forgotPassword.ctrl.js:27-54 | An unknown email gives 404 and no change. Otherwise a user with that email gets the fresh token and its expiry, saved before the mail is sent. The reply is 200 "Reset link sent." when the mail goes out, else 500 |
| ResetPasswordController.AfterReset | controllers/resetPassword.ctrl.js:24-27 | the password becomes the new hash, both token fields become null, and no token matches the record any more |
| ResetPasswordController.TokenWindow | controllers/resetPassword.ctrl.js:17-20 | a token issued at t is accepted at t' exactly when it is the token presented and t' < t + 3600000 |
| ResetPasswordController.ResetPassword | controllers/resetPassword.ctrl.js:13-33 | 404 with no change exactly when no user holds the token unexpired; otherwise 200 and a user holding it gets the new password hash and loses the token |
| ResetPasswordController.ResetIsSingleUse | controllers/resetPassword.ctrl.js:17-27 | after a reset, the same token matches no user unless another user held it too |
| UpdateProfileController.BuildUpdate | controllers/updateProfile.ctrl.js:20-23 | each of first_name, last_name and username enters the update exactly when it is truthy, with the supplied value |
| UpdateProfileController.ApplyUpdate | controllers/updateProfile.ctrl.js:29 | the fields in the update are set and no other field of the record is written |
| UpdateProfileController.EmptyUpdateKeepsUser | controllers/updateProfile.ctrl.js:20-29 | a request without a truthy name field leaves the record unchanged |
| UpdateProfileController.UpdateKeepsAccountFields | controllers/updateProfile.ctrl.js:19-29 | the email, password, reset fields and login fields are never written |
| UpdateProfileController.AccessToken | controllers/updateProfile.ctrl.js:26 | the access token is the second space-separated piece of the header, present exactly when the header has one |
| UpdateProfileController.BearerHeader | controllers/updateProfile.ctrl.js:26 | a header "scheme token" of two space-free parts yields the token back |
| UpdateProfileController.UpdateProfile | controllers/updateProfile.ctrl.js:17-36 | a missing or empty header gives 403 and no change; a header without a second piece, or a token that does not verify, gives 400 with the verifier's message; an unknown user gives 404; otherwise 201 with the record after the update, which is stored |

## Left out

- Express routing, server start-up, the database connection, the middlewares and the handlers outside this core (admin login, user profile, registration). They are wiring over foreign calls and are not part of this model.
- Password hashing and comparison, issuing and checking access tokens, random bytes, the clock and the mail transport are foreign calls. They are the parameters `hash`, `compare`, `sign`, `verify`, `random`, `now` and `mailSent`.
- An exception thrown by `jwt.verify` is modelled as `Invalid(message)`. JavaScript `undefined` from `split(" ")[1]` is modelled as None.
- The regular-expression name search is the parameter `matches`. The sort order of a listing is the order of the input sequence, so `sort` and `direction` are computed but not applied. `populate` is not modelled. Neither are the nominal skip and limit on getCart's single-document query.
- `parseInt` is modelled by its outcome: an integer, or None for NaN. Strings that are not numbers are not parsed.
- Prices are `real`, so floating-point rounding and NaN are not modelled. Lowercasing covers ASCII letters only; other letters are left as they are.
- ResetPasswordController.ResetPassword: the reset token is always present in the model, as the handler's documented string parameter says; the same holds for the email of LoginController.LoginUser and ForgotPasswordController.ForgotPassword. A request body that leaves the field out passes `undefined` into `findOne`, which Mongoose drops from the filter. In the source, a reset without a token then resets some user who holds any unexpired token, and a login or reset request without an email acts on an arbitrary user. The model does not express these requests, so `ResetPassword`'s 404 exactly when no user holds the presented token, and `ResetIsSingleUse`, hold only for requests that carry the field.
- JSON `null` and a missing field are both None. The source treats them differently, because defaults apply only to a missing field:
  - a `quantity: null` added to an existing cart entry leaves it unchanged with 200 in the source (`q + null` is `q`), where the model answers 500;
  - a `quantity: null` on a pushed entry fails `required` in the source (500), where the model pushes quantity 1;
  - a `quantity: null` for a user without a cart fails `required` on the new cart in the source (500), where the model answers 201 with a cart holding quantity 1;
  - a `category: null` fails `required` in `addProduct` (400), where the model applies the 'Blender' default.
- A field of the wrong type (a string quantity, whose `+=` would concatenate) is not modelled. Cart quantities are integers or omitted.
- Product ids in cart requests are assumed to be spelled canonically (lower-case hex, as `toString()` of an ObjectId gives them). The catalog lookup converts the request string to an ObjectId, which accepts upper-case hex, while the entry match compares raw strings. A differently spelled id of a product already in the cart makes the source push a second entry for it, miss it in `updateCart` (404) and remove nothing in `removeFromCart`. The model compares ids as plain strings throughout, so the one-entry-per-product invariant holds only for canonical spellings.
- ProductSchema.StringError: length limits count characters (Unicode scalar values), while the validation library counts UTF-16 code units. A name of 60 characters outside the Basic Multilingual Plane passes in the model but is refused by the source.
- ProductSchema.NewProduct: `countInStock` is an integer in the model. The schema's Number type also accepts a fractional stock such as 2.5, which the model cannot express.
- A malformed id that makes Mongoose throw a cast error, and so a 500 (or a 400 with the error's message in updateProfile), is not modelled: ids are opaque strings. A duplicate id on `save` is the one store failure modelled (500). The `error` detail in 500 bodies and the choice of body key (`message` or `error`) are not modelled.
- The catch clause of `loginUser` (400 with the error) is not modelled: no call inside it can fail in this model.
- Mongoose's message templates are the parameter `describe` of `AddProduct`. The model reports the first failing validator of each path, in schema path order.
- Concurrent requests and lost updates between a load and a save are not modelled. Every handler runs alone.
- The source as written would crash or misroute in several places. The model follows the evident intent:
  - `new Cart` (controllers/cart.ctrl.js:51) stands for the cart model;
  - the controllers' `items` stands for the schema's `products` field;
  - getCart's `req.user.id` and the other handlers' `req.user._id` are both the user id;
  - the missing imports of the order and cart models in the checkout and orders controllers are assumed present;
  - the admin route parameters are taken to reach the handlers;
  - the remove route is taken to carry the product id;
  - the checkout route is taken to be authenticated.
- Checkout stores fields that the order schema does not declare (user, items, total, date, status; the schema's date field is `orderDate`) and lacks the required customerName, customerEmail and totalPrice. Its records are kept as `PlacedOrder` in a store of their own, `placed`, apart from the schema-checked orders.
- `wrongPasswordCount` and `blockedUntil` are not in the user schema, so Mongoose would not persist them. The model stores them as the handler intends, with the count starting from the stored value.
- Rating entries always carry their user reference. The required check on a rating's user is not modelled separately.
- CartController.GetCart: the reply is specified about the stored cart only. Populating product names, prices and images is not modelled.
