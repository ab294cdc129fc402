/** The persistent entities of the store, its error taxonomy and the integrity
    rules that the tables keep (unique ids, unique e-mails, one cart per user,
    one cart line per product). */
module Domain {
  import opened Sequences

  /** A database identifier (a UUID in the store). */
  type Id = nat
  /** A clock reading, in seconds. */
  type Time = int
  /** An exact decimal amount, in cents. */
  type Money = int

  const SecondsPerDay: int := 86400

  datatype Option<T> = None | Some(value: T)

  datatype Category = BOOTS | BALLS | JERSEYS
  datatype Brand = ADIDAS | NIKE | PUMA | MIZUNO | NEW_BALANCE
  datatype Role = USER | ADMIN

  datatype Product = Product(
    id: Id, name: string, description: string, price: Money, category: Category,
    imageUrl: string, brand: Brand, inStock: bool, deleted: bool)

  /** The seven editable product fields, as the product form carries them. */
  datatype ProductRequest = ProductRequest(
    name: string, description: string, price: Money, category: Category,
    imageUrl: string, brand: Brand, inStock: bool)

  /** A user; the names and the phone number are nullable columns. */
  datatype User = User(
    id: Id, firstName: Option<string>, lastName: Option<string>, phoneNumber: Option<string>,
    email: string, password: string, role: Role, createdOn: Time)

  datatype RegisterRequest = RegisterRequest(email: string, password: string)

  /** The profile form; every field may be null, the phone number included. */
  datatype UserEditRequest = UserEditRequest(
    firstName: Option<string>, lastName: Option<string>, phoneNumber: Option<string>)

  datatype CartItem = CartItem(product: Id, quantity: nat)
  datatype Cart = Cart(id: Id, user: Id, items: seq<CartItem>, lastUpdated: Time)

  datatype OrderItem = OrderItem(product: Id, quantity: nat)
  datatype Order = Order(id: Id, user: Id, createdOn: Time, totalPrice: Money, items: seq<OrderItem>)

  /** A message handed to the notification sink. */
  datatype Email = Email(recipient: string, subject: string, body: string)

  datatype Error =
    | UserNotFound          // DomainException "User not found!"
    | ProductNotFound       // DomainException "Product not found."
    | CartNotFound          // DomainException "Cart with cart id [..] not found!"
    | EmptyCart             // IllegalStateException "Cart is empty! Cannot place order."
    | EmailAlreadyExists    // EmailAlreadyExistException
    | NoCartForUser         // NullPointerException on a user without a cart
    | MissingPhone          // NullPointerException on a profile form with a null phone
    | PhoneTooShort         // StringIndexOutOfBoundsException in substring(4, 13)

  datatype Result<T> = Ok(value: T) | Err(error: Error)
  datatype Outcome = Done | Failed(error: Error)

  // ---------------------------------------------------------------- users

  predicate UniqueUserIds(users: seq<User>)
  {
    forall i, j :: 0 <= i < j < |users| ==> users[i].id != users[j].id
  }

  /** The `unique = true` constraint on the e-mail column. */
  predicate UniqueEmails(users: seq<User>)
  {
    forall i, j :: 0 <= i < j < |users| ==> users[i].email != users[j].email
  }

  function UserIds(users: seq<User>): set<Id>
  {
    set u | u in users :: u.id
  }

  function Emails(users: seq<User>): set<string>
  {
    set u | u in users :: u.email
  }

  /** `findById` on the user table. */
  function FindUser(users: seq<User>, id: Id): (r: Option<User>)
    ensures r.Some? <==> id in UserIds(users)
    ensures r.Some? ==> r.value in users && r.value.id == id
  {
    var i := IndexWhere(users, (u: User) => u.id == id);
    if i < 0 then None else Some(users[i])
  }

  /** The row of user `id` in the table, or -1. */
  function UserRow(users: seq<User>, id: Id): (i: int)
    ensures -1 <= i < |users|
    ensures i == -1 <==> id !in UserIds(users)
    ensures 0 <= i ==> users[i].id == id
  {
    IndexWhere(users, (u: User) => u.id == id)
  }

  // ------------------------------------------------------------- products

  predicate UniqueProductIds(products: seq<Product>)
  {
    forall i, j :: 0 <= i < j < |products| ==> products[i].id != products[j].id
  }

  function ProductIds(products: seq<Product>): set<Id>
  {
    set p | p in products :: p.id
  }

  /** The row of product `id` in the table, or -1. */
  function ProductRow(products: seq<Product>, id: Id): (i: int)
    ensures -1 <= i < |products|
    ensures i == -1 <==> id !in ProductIds(products)
    ensures 0 <= i ==> products[i].id == id
  {
    IndexWhere(products, (p: Product) => p.id == id)
  }

  /** `findById` on the product table; soft-deleted rows are found too. */
  function FindProduct(products: seq<Product>, id: Id): (r: Option<Product>)
    ensures r.Some? <==> id in ProductIds(products)
    ensures r.Some? ==> r.value in products && r.value.id == id
  {
    var i := ProductRow(products, id);
    if i < 0 then None else Some(products[i])
  }

  /** The current price of a product that is in the table. */
  function PriceOf(products: seq<Product>, id: Id): Money
    requires id in ProductIds(products)
  {
    FindProduct(products, id).value.price
  }

  lemma {:induction false} ProductIdsReplace(products: seq<Product>, i: nat, p: Product)
    requires i < |products| && p.id == products[i].id
    ensures ProductIds(products[i := p]) == ProductIds(products)
  {
    var ps := products[i := p];
    forall id | id in ProductIds(products) ensures id in ProductIds(ps) {
      var q :| q in products && q.id == id;
      var k :| 0 <= k < |products| && products[k] == q;
      assert ps[k].id == id;
    }
    forall id | id in ProductIds(ps) ensures id in ProductIds(products) {
      var q :| q in ps && q.id == id;
      var k :| 0 <= k < |ps| && ps[k] == q;
      assert products[k].id == id;
    }
  }

  // ---------------------------------------------------------------- carts

  predicate UniqueCartIds(carts: seq<Cart>)
  {
    forall i, j :: 0 <= i < j < |carts| ==> carts[i].id != carts[j].id
  }

  /** The one-to-one association between a user and a cart. */
  predicate OneCartPerUser(carts: seq<Cart>)
  {
    forall i, j :: 0 <= i < j < |carts| ==> carts[i].user != carts[j].user
  }

  /** No two lines of a cart are for the same product (merge on add). */
  predicate OneLinePerProduct(items: seq<CartItem>)
  {
    forall i, j :: 0 <= i < j < |items| ==> items[i].product != items[j].product
  }

  predicate WellFormedCart(cart: Cart, products: seq<Product>)
  {
    && OneLinePerProduct(cart.items)
    && forall l :: l in cart.items ==> l.quantity >= 1 && l.product in ProductIds(products)
  }

  predicate CartsValid(carts: seq<Cart>, products: seq<Product>)
  {
    && UniqueCartIds(carts)
    && OneCartPerUser(carts)
    && forall c :: c in carts ==> WellFormedCart(c, products)
  }

  function CartIds(carts: seq<Cart>): set<Id>
  {
    set c | c in carts :: c.id
  }

  /** The row of cart `id` (`findById`), or -1. */
  function CartRow(carts: seq<Cart>, id: Id): (i: int)
    ensures -1 <= i < |carts|
    ensures i == -1 <==> id !in CartIds(carts)
    ensures 0 <= i ==> carts[i].id == id
  {
    IndexWhere(carts, (c: Cart) => c.id == id)
  }

  /** The row of the cart owned by `user` (`findByUserId`), or -1. */
  function CartRowOf(carts: seq<Cart>, user: Id): (i: int)
    ensures -1 <= i < |carts|
    ensures i == -1 <==> forall k :: 0 <= k < |carts| ==> carts[k].user != user
    ensures 0 <= i ==> carts[i].user == user
    ensures 0 <= i ==> forall k :: 0 <= k < i ==> carts[k].user != user
  {
    IndexWhere(carts, (c: Cart) => c.user == user)
  }

  /** Products that only gain rows or keep their ids keep every cart well formed. */
  lemma CartsValidMoreProducts(carts: seq<Cart>, products: seq<Product>, products': seq<Product>)
    requires CartsValid(carts, products)
    requires ProductIds(products) <= ProductIds(products')
    ensures CartsValid(carts, products')
  {
  }

  // --------------------------------------------------------------- orders

  predicate UniqueOrderIds(orders: seq<Order>)
  {
    forall i, j :: 0 <= i < j < |orders| ==> orders[i].id != orders[j].id
  }

  function OrderIds(orders: seq<Order>): set<Id>
  {
    set o | o in orders :: o.id
  }

  // ------------------------------------------------------------- database

  /** The integrity rules of the whole database. */
  predicate Consistent(users: seq<User>, products: seq<Product>, carts: seq<Cart>, orders: seq<Order>)
  {
    && UniqueUserIds(users)
    && UniqueEmails(users)
    && UniqueProductIds(products)
    && CartsValid(carts, products)
    && UniqueOrderIds(orders)
  }
}
