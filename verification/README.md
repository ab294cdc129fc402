# Online football store — domain services in Dafny

This project models the domain-service layer of the OnlineFootballStore Spring application:

- the cart engine (`CartService`);
- checkout (`OrderService`);
- the product catalogue (`ProductService`);
- user accounts (`UserService`);
- the two form mappers (`DtoMapper`).

The repositories become one in-memory store, the class `Store.Database`. It holds one table per entity as a sequence of rows in storage order, plus an outbox of the welcome e-mails handed to the notification sink. Each service is a class over that store. Its methods change the tables in place. Each method's contract states the new tables as functions of the old ones and names the tables that stay unchanged. The store's integrity rules are kept by every method (`Database.Valid`):

- unique ids;
- unique e-mails;
- one cart per user;
- one line per product in a cart, with every line of positive quantity and naming a known product.

Modules, in dependency order:

| file | module | what it holds |
|---|---|---|
| `sequences.dfy` | `Sequences` | Generic filter, first-index search, and a stable sort by an integer key, with their lemmas. |
| `domain.dfy` | `Domain` | The entities, the error taxonomy, lookups and integrity predicates. |
| `store.dfy` | `Store` | The `Database` class. |
| `catalog.dfy` | `Catalog` | `ProductService`, the category display order and the featured sample. |
| `accounts.dfy` | `Accounts` | `UserService`, phone normalisation, the role toggle and the bootstrap administrator. |
| `carts.dfy` | `Carts` | `CartService`: merge on add, per-user and store-wide removal, clearing, the 7-day sweep and the cart total. |
| `orders.dfy` | `Orders` | `OrderService`: checkout and the order history. |
| `mapper.dfy` | `DtoMapper` | `fromUser` and `fromProduct`, with their round trips through `editUserInfo` and `updateProduct`. |

Representation choices:

- Money is an integer number of cents, which stands for the exact `BigDecimal`.
- Time is an integer number of seconds, and a day is 86400 seconds.
- Ids are naturals.
- A cart line and an order line hold the product's id. Prices are read from the product table, as the code reads them through the live `Product` entity.
- A thrown exception becomes an `Err`/`Failed` value. Every `@Transactional` method is all-or-nothing: on failure the tables are exactly as before.
- Wherever the code calls `LocalDateTime.now()`, the clock reading is a parameter.
- Wherever the code generates a UUID, the fresh id is a parameter with the precondition that it is unused.

Behaviour of the code that a reader might not expect, which the model keeps:

- A lookup by id might be expected to skip soft-deleted products; `getProductById` uses `findById`, which does not, so `addToCart` accepts a deleted product.
- `deleteCartItem` with a user who has no cart throws a `NullPointerException`, but only when some cart holds the product. The model returns `Failed(NoCartForUser)` in that case, and `Done` without change otherwise.
- `deleteCartItem` refreshes the user's cart's `lastUpdated` whenever some cart anywhere holds the product, even when the user's own cart has no line for it.
- `editUserInfo` with a profile form whose phone number is null (the 9-digit pattern lets null through) throws a `NullPointerException` on `isEmpty` after the user is found. The model returns `Failed(MissingPhone)` and saves nothing.

## Model

All source paths are relative to the repository root.

| member | source | states |
|---|---|---|
| Catalog.ProductService.CreateProduct | src/main/java/com/footballstore/product/service/ProductService.java:31-44 | Appends one product whose seven fields are the request's, with `deleted = false`. The other tables are unchanged and the store stays valid. |
| Catalog.ApplyRequest | src/main/java/com/footballstore/product/service/ProductService.java:64-70 | Replacing the seven editable fields keeps the product's id and its deleted flag. |
| Catalog.ProductService.UpdateProduct | src/main/java/com/footballstore/product/service/ProductService.java:61-74 | An unknown id fails with ProductNotFound and saves nothing. Otherwise only that row's seven fields are replaced. |
| Catalog.ProductService.DeleteProduct | src/main/java/com/footballstore/product/service/ProductService.java:76-80 | A soft delete: only the row's `deleted` flag becomes true, and no row is removed. An unknown id fails with ProductNotFound. |
| Catalog.DeleteIdempotent | src/main/java/com/footballstore/product/service/ProductService.java:76-80 | A second delete finds the same row and leaves the table as the first delete did. |
| Catalog.ProductService.GetProductById | src/main/java/com/footballstore/product/service/ProductService.java:82-84 | Ok exactly when a row has the id, and the value is that row. Otherwise the error is ProductNotFound. |
| Catalog.ListAllContents | src/main/java/com/footballstore/product/service/ProductService.java:46-52 | The listing is a permutation of the non-deleted rows. A product is listed exactly when it is a row and is not deleted. |
| Catalog.ListAllCategoryOrder | src/main/java/com/footballstore/product/service/ProductService.java:47-51 | Every BOOTS product comes before every BALLS product, and every BALLS product before every JERSEYS product. |
| Catalog.ListAllStable | src/main/java/com/footballstore/product/service/ProductService.java:50 | Within one category the listing keeps the order the repository returned, because the sort is stable. |
| Catalog.ProductService.GetAllProducts | src/main/java/com/footballstore/product/service/ProductService.java:46-52 | The listing holds every non-deleted product once per row and nothing else, BOOTS before BALLS before JERSEYS (from ListAllContents and ListAllCategoryOrder). |
| Catalog.Featured | src/main/java/com/footballstore/product/service/ProductService.java:54-57 | At most 3 products, and exactly min(3, number of candidates). Each one is a row that is in stock and not deleted. |
| Catalog.ProductService.GetFeaturedProducts | src/main/java/com/footballstore/product/service/ProductService.java:54-57 | Exactly min(3, number of candidates) products, each a row that is in stock and not deleted. |
| Accounts.UserService.GetUserById | src/main/java/com/footballstore/user/service/UserService.java:81-83 | Ok exactly when a user has the id, and the value is that user. Otherwise the error is UserNotFound. |
| Accounts.UserService.RegisterUser | src/main/java/com/footballstore/user/service/UserService.java:39-59 | An e-mail already in use fails with EmailAlreadyExists, saves nothing and sends nothing. Otherwise exactly one USER account with the encoded password is appended and one welcome e-mail is queued. E-mails stay unique. |
| Accounts.AppendKeepsEmailsUnique | src/main/java/com/footballstore/user/model/User.java:31-32 | Adding an account whose e-mail is not yet used keeps the unique-e-mail rule. |
| Accounts.NormalizePhone | src/main/java/com/footballstore/user/service/UserService.java:66-70 | An empty phone is stored as null. A non-empty phone is stored as "+359" followed by exactly the entered characters. |
| Accounts.EditFields | src/main/java/com/footballstore/user/service/UserService.java:64-70 | An edit keeps the id, e-mail, password, role and creation time. |
| Accounts.UserService.EditUserInfo | src/main/java/com/footballstore/user/service/UserService.java:61-75 | An unknown id fails with UserNotFound and saves nothing. A known user with a null phone in the form fails with MissingPhone and saves nothing. Otherwise only that user's names and phone change. |
| Accounts.ToggleRole | src/main/java/com/footballstore/user/service/UserService.java:88-92 | The new role always differs from the old one. |
| Accounts.ToggleRoleTwice | src/main/java/com/footballstore/user/service/UserService.java:85-95 | Changing the role twice restores it. |
| Accounts.UserService.ChangeRole | src/main/java/com/footballstore/user/service/UserService.java:85-95 | An unknown id fails with UserNotFound. Otherwise only that user's role is swapped. |
| Accounts.CountEmailUnique | src/main/java/com/footballstore/user/model/User.java:31-32 | Under the unique-e-mail rule, an e-mail in use belongs to exactly one account. |
| Accounts.UserService.CreateAdminIfNotExist | src/main/java/com/footballstore/user/service/UserService.java:110-127 | After any call exactly one account has the administrator e-mail. When it exists already nothing changes; otherwise one ADMIN account is appended. |
| Carts.FindLine | src/main/java/com/footballstore/cart/service/CartService.java:55-57 | Returns the first line of the product, or -1 exactly when the cart has no line for it. |
| Carts.AddUnit | src/main/java/com/footballstore/cart/service/CartService.java:55-71 | The merge step (find the first line of the product, raise it or append a line of quantity 1) computes exactly the reference `AddLine`. |
| Carts.AddLineAt | src/main/java/com/footballstore/cart/service/CartService.java:55-62 | Under one line per product, incrementing the line found by `findFirst` is the reference "raise every line of the product". |
| Carts.AddLineExisting | src/main/java/com/footballstore/cart/service/CartService.java:59-62 | Adding a product that has a line keeps the number of lines. That line's quantity rises by exactly 1 and every other line is unchanged. |
| Carts.AddLineNew | src/main/java/com/footballstore/cart/service/CartService.java:63-71 | Adding a product with no line appends exactly one line, of quantity 1. |
| Carts.AddLineWellFormed | src/main/java/com/footballstore/cart/service/CartService.java:55-71 | Adding keeps one line per product. The product then has a line, and every other line was there before. |
| Carts.AddLineQuantity | src/main/java/com/footballstore/cart/service/CartService.java:55-71 | One add raises that product's quantity by 1 and every other product's quantity by 0. |
| Carts.AddLineTotal | src/main/java/com/footballstore/cart/service/CartService.java:113-117 | One add raises the cart total by exactly the product's price. |
| Carts.AddTimesQuantity | src/main/java/com/footballstore/cart/service/CartService.java:55-71 | After n adds of a product the cart still has one line per product. That product's quantity grew by n and the others' quantities are unchanged. |
| Carts.AddTimesFromEmpty | src/test/java/com/footballstore/cart/AddToCartITest.java:82-84 | From an empty cart, n adds of one product leave exactly one line, of quantity n. |
| Carts.CartTotalConcat | src/main/java/com/footballstore/cart/service/CartService.java:113-117 | The price × quantity sum over two runs of cart lines put together is the sum of the two runs' totals. |
| Carts.CartService.GetCartTotal | src/main/java/com/footballstore/cart/service/CartService.java:113-117 | An empty cart totals zero. |
| Carts.CartService.InitCart | src/main/java/com/footballstore/cart/service/CartService.java:119-127 | Appends one empty cart for the user, stamped with the clock reading. |
| Carts.CartService.GetCartByUserId | src/main/java/com/footballstore/cart/service/CartService.java:129-133 | Returns the user's cart unchanged. Failing that, an unknown user fails with UserNotFound, and a known user gets a new empty cart. |
| Carts.CartService.AddToCart | src/main/java/com/footballstore/cart/service/CartService.java:41-75 | An unknown user fails with UserNotFound; otherwise an unknown product fails with ProductNotFound. A failure changes nothing. Otherwise the user's cart (created when missing) gets one more unit of the product and the clock reading, and every other cart is unchanged. |
| Carts.AddedToFacts | src/main/java/com/footballstore/cart/service/CartService.java:41-75 | After addToCart the user's cart has one line per product, one more unit of the product, the same quantity of every other product, and a total higher by the price. No other user's cart changes. |
| Carts.CartService.DeleteCartItem | src/main/java/com/footballstore/cart/service/CartService.java:77-94 | If no cart holds the product, nothing changes. If the user has no cart, it fails with NoCartForUser and nothing changes. Otherwise only the user's cart loses its lines of the product and takes the clock reading. |
| Carts.RemoveLinesFacts | src/main/java/com/footballstore/cart/service/CartService.java:83-88 | After removal no line has the product, and exactly the lines of the other products remain. |
| Carts.RemoveLinesOneLine | src/main/java/com/footballstore/cart/service/CartService.java:88 | Removal keeps one line per product. |
| Carts.RemoveLinesQuantity | src/main/java/com/footballstore/cart/service/CartService.java:88 | After removal the product's quantity is 0 and every other product's quantity is unchanged. |
| Carts.CartService.DeleteCartItemFullyFromDb | src/main/java/com/footballstore/cart/service/CartService.java:96-111 | Each cart holding the product loses it and takes the clock reading. Every other cart is unchanged. |
| Carts.StripAllFacts | src/main/java/com/footballstore/cart/service/CartService.java:97-111 | Afterwards no cart holds the product. Every cart keeps its id, its owner and its quantity of every other product. |
| Carts.StripAllValid | src/main/java/com/footballstore/cart/service/CartService.java:97-111 | Store-wide removal keeps every cart well formed. |
| Carts.CartService.ClearCart | src/main/java/com/footballstore/cart/service/CartService.java:135-145 | An unknown cart id fails with CartNotFound. Otherwise only that cart is emptied and takes the clock reading. |
| Carts.ClearedTwice | src/main/java/com/footballstore/cart/service/CartService.java:139-142 | Clearing twice at the same clock gives the same cart as clearing once, with no lines. |
| Carts.CartService.CleanUpOldCarts | src/main/java/com/footballstore/cart/service/CartService.java:147-157 | The cart table becomes the sweep of the old one. The count returned is the number of expired carts. |
| Carts.ExpiredIdsMembers | src/main/java/com/footballstore/cart/service/CartService.java:150-152 | An id is selected exactly when a cart with that id has `lastUpdated` strictly before now minus 7 days. |
| Carts.ExpiredIdsExact | src/main/java/com/footballstore/cart/service/CartService.java:150-152 | With unique cart ids, a cart is selected exactly when it is expired. |
| Carts.SweepExact | src/main/java/com/footballstore/cart/service/CartService.java:147-157 | The sweep empties and stamps exactly the expired carts and leaves the others unchanged. No cart changes id or owner. |
| Carts.SweepIdempotent | src/main/java/com/footballstore/cart/service/CartService.java:147-157 | A second sweep at the same clock selects no cart and changes nothing. |
| Orders.SnapshotLines | src/main/java/com/footballstore/order/service/OrderService.java:47-53 | The order has one line per cart line, in the same order, with the same product and quantity. |
| Orders.OrderTotalConcat | src/main/java/com/footballstore/order/service/OrderService.java:64-69 | `calculateTotalPrice` over two runs of order lines put together is the sum of the two runs' totals. |
| Orders.PlacedOrder | src/main/java/com/footballstore/order/service/OrderService.java:42-58 | The saved order's total, computed by `calculateTotalPrice` over the new order lines, equals the cart total at checkout. |
| Orders.SnapshotTotal | src/main/java/com/footballstore/order/service/OrderService.java:64-69 | The order total, summed over the order lines, equals the cart total just before checkout. |
| Orders.OrderService.PlaceOrder | src/main/java/com/footballstore/order/service/OrderService.java:34-62 | A user without a cart fails with UserNotFound when unknown, and with EmptyCart otherwise. An empty cart also fails with EmptyCart. A failure creates no order and changes nothing. Otherwise exactly one order is appended: the user's, stamped now, with the cart's lines, and a total computed over the order lines that equals the cart total. That cart is then emptied. |
| Orders.FirstOrder | src/test/java/com/footballstore/order/PlaceOrderITest.java:94-97 | After a user's first order, that order is the user's whole history. |
| Orders.OrdersOfFacts | src/main/java/com/footballstore/order/service/OrderService.java:71-74 | The history holds exactly the user's orders, each once per row, ordered newest first. |
| Orders.OrderService.GetOrdersByUser | src/main/java/com/footballstore/order/service/OrderService.java:71-74 | Returns exactly the user's orders, each once per row, with creation times never increasing along the list. |
| DtoMapper.FromUser | src/main/java/com/footballstore/web/mapper/DtoMapper.java:12-24 | Names are copied. A null phone becomes "". A stored phone shorter than 13 characters fails. Otherwise the form shows characters 4 up to 13 of the stored phone. The form's phone is never null. |
| DtoMapper.FromProduct | src/main/java/com/footballstore/web/mapper/DtoMapper.java:26-36 | Applying the form to the product it came from changes nothing, so `updateProduct(id, fromProduct(p))` leaves p as it was. |
| DtoMapper.EditFormRoundTrip | src/main/java/com/footballstore/web/dto/UserEditRequest.java:22 | Saving a profile form with an empty or 9-digit phone and reading it back gives the same form. |
| DtoMapper.EditFormShortPhone | src/main/java/com/footballstore/web/mapper/DtoMapper.java:16 | A non-empty phone shorter than 9 characters is saved, but its form can no longer be read back. |
| DtoMapper.ProductFormRoundTrip | src/main/java/com/footballstore/web/mapper/DtoMapper.java:26-36 | The form of a created product is its creation request, and the form of an updated product is its update request. |

## Left out

- Persistence: JPA repositories, entity aliasing, cascades and lazy loading are not modelled. A row is a value in a sequence, and a mutation replaces it.
- Transactions: rollback is modelled by checking failures before anything is written, so no partial write is representable.
- Concurrency: a sweep racing an add-to-cart, and any other check-then-act race, are not modelled.
- The clock and id generation: `LocalDateTime.now()` is a parameter. Generated UUIDs are parameters whose freshness is a precondition.
- Clock readings within one call: the code reads `LocalDateTime.now()` several times in one call, and the model uses one value `now` for all of them. In `placeOrder` the order's `createdOn` and the cleared cart's `lastUpdated` get that value. In `cleanUpOldCarts` the cutoff and every `clearCart` stamp get it. The few milliseconds between real readings are not modelled, and no proved property depends on them.
- Password encoding: `PasswordEncoder` is an opaque function parameter.
- E-mail: sending is an entry appended to the outbox. The Feign client, its failures and the e-mail controller are not modelled.
- Logging: log lines are not modelled. `cleanUpOldCarts` returns the count it would log.
- The scheduler: `CartCleanupScheduler` only triggers `cleanUpOldCarts`, which is modelled directly.
- Seed data: `createAppProducts`, `ProductInit` and `UserInit` are data loaders, not logic.
- Catalogue queries: `getProductsByCategory` and `getSearchedProducts` are not modelled, because their repository queries are not declared in the repository interface as written.
- Other `UserService` members: `getAllUsers`, `deleteUser` and `loadUserByUsername` are outside the modelled services.
- Controllers and validation: the web controllers and exception advice are not modelled. Validation annotations are used only as preconditions, as in the 9-digit phone of the round trip.
- Featured: the database's random order is the rotation parameter `offset`. Only the bound, the count and the filter are stated, not uniformity.
- AddToCart: quantities are unbounded naturals. Java's `int` quantity would wrap after 2^31 - 1 adds of one product.
- InitCart: requires that the user has no cart. Its callers call it only then, and the one-to-one association rules out a second cart.
- ListAll: `findAllByDeletedFalse` has no ORDER BY, so the database returns the rows in an unspecified order; the model takes table order, and the stable sort keeps that order within a category.
- OrdersOf: orders with equal timestamps are listed in storage order, while the database leaves their relative order unspecified.
- FromUser: string lengths and substring positions count characters, while Java's `length` and `substring` count UTF-16 code units. The two agree only on text without characters outside the Basic Multilingual Plane. Every phone number the 9-digit pattern of the profile form accepts is such text. On a phone holding such characters, `EditFormRoundTrip` and `EditFormShortPhone` do not describe Java's behaviour.
- Money: prices are integer cents. The scale and rounding of `BigDecimal` are not modelled.
