/** Checkout: turning a cart into an order with a frozen total, and the order
    history of a user, newest first. */
module Orders {
  import opened Sequences
  import opened Domain
  import opened Store
  import opened Carts

  /** The order lines copied from the cart lines, one for one. */
  function Snapshot(items: seq<CartItem>): (r: seq<OrderItem>)
    ensures |r| == |items|
  {
    if items == [] then []
    else Snapshot(items[..|items| - 1]) + [OrderItem(items[|items| - 1].product, items[|items| - 1].quantity)]
  }

  predicate OrderPriced(items: seq<OrderItem>, products: seq<Product>)
  {
    forall i :: 0 <= i < |items| ==> items[i].product in ProductIds(products)
  }

  /** `calculateTotalPrice`: price times quantity over the order lines. */
  function OrderTotal(items: seq<OrderItem>, products: seq<Product>): Money
    requires OrderPriced(items, products)
  {
    if items == [] then 0
    else
      var last := items[|items| - 1];
      OrderTotal(items[..|items| - 1], products) + PriceOf(products, last.product) * last.quantity
  }

  /** The snapshot has the cart's lines: same products, same quantities, same order. */
  lemma {:induction false} SnapshotLines(items: seq<CartItem>)
    ensures |Snapshot(items)| == |items|
    ensures forall i :: 0 <= i < |items| ==>
              Snapshot(items)[i].product == items[i].product && Snapshot(items)[i].quantity == items[i].quantity
  {
    if items != [] {
      SnapshotLines(items[..|items| - 1]);
    }
  }

  lemma OrderTotalAppend(items: seq<OrderItem>, line: OrderItem, products: seq<Product>)
    requires OrderPriced(items, products) && line.product in ProductIds(products)
    ensures OrderPriced(items + [line], products)
    ensures OrderTotal(items + [line], products)
         == OrderTotal(items, products) + PriceOf(products, line.product) * line.quantity
  {
    assert (items + [line])[..|items|] == items;
  }

  /** `calculateTotalPrice` over two runs of lines is the sum of their totals. */
  lemma {:induction false} OrderTotalConcat(a: seq<OrderItem>, b: seq<OrderItem>, products: seq<Product>)
    requires OrderPriced(a, products) && OrderPriced(b, products)
    ensures OrderPriced(a + b, products)
    ensures OrderTotal(a + b, products) == OrderTotal(a, products) + OrderTotal(b, products)
  {
    if b == [] {
      assert a + b == a;
    } else {
      var n := |b| - 1;
      assert OrderPriced(b[..n], products) by {
        forall i | 0 <= i < n ensures b[..n][i].product in ProductIds(products) {
          assert b[..n][i] == b[i];
        }
      }
      OrderTotalConcat(a, b[..n], products);
      assert a + b == (a + b[..n]) + [b[n]];
      OrderTotalAppend(a + b[..n], b[n], products);
    }
  }

  /** The total frozen into the order is the cart total at checkout. */
  lemma {:induction false} SnapshotTotal(items: seq<CartItem>, products: seq<Product>)
    requires Priced(items, products)
    ensures OrderPriced(Snapshot(items), products)
    ensures OrderTotal(Snapshot(items), products) == CartTotal(items, products)
  {
    if items != [] {
      var n := |items| - 1;
      var front := items[..n];
      assert Priced(front, products) by {
        forall i | 0 <= i < n ensures front[i].product in ProductIds(products) {
          assert front[i] == items[i];
        }
      }
      SnapshotTotal(front, products);
      var line := OrderItem(items[n].product, items[n].quantity);
      assert Snapshot(items) == Snapshot(front) + [line];
      OrderTotalAppend(Snapshot(front), line, products);
    }
  }

  /** The order `placeOrder` saves for a cart: the snapshot of its lines, with
      `calculateTotalPrice` of those order lines as the total, which is the
      cart total at checkout. */
  function PlacedOrder(id: Id, user: Id, now: Time, items: seq<CartItem>, products: seq<Product>): (o: Order)
    requires Priced(items, products)
    ensures o.totalPrice == CartTotal(items, products)
  {
    SnapshotTotal(items, products);
    Order(id, user, now, OrderTotal(Snapshot(items), products), Snapshot(items))
  }

  /** The sort key of `OrderByCreatedOnDesc`. */
  function NewestFirst(o: Order): int
  {
    -o.createdOn
  }

  /** `findAllByUserIdOrderByCreatedOnDesc`: the user's orders, newest first;
      orders with the same timestamp keep storage order. */
  function OrdersOf(orders: seq<Order>, user: Id): seq<Order>
  {
    SortBy(Filter(orders, (o: Order) => o.user == user), NewestFirst)
  }

  /** The history holds exactly the user's orders, each as often as it is
      stored, and lists them from the newest to the oldest. */
  lemma OrdersOfFacts(orders: seq<Order>, user: Id)
    ensures multiset(OrdersOf(orders, user)) == multiset(Filter(orders, (o: Order) => o.user == user))
    ensures forall o :: o in OrdersOf(orders, user) <==> o in orders && o.user == user
    ensures forall i, j :: 0 <= i < j < |OrdersOf(orders, user)| ==>
              OrdersOf(orders, user)[i].createdOn >= OrdersOf(orders, user)[j].createdOn
  {
    var mine := Filter(orders, (o: Order) => o.user == user);
    SortByFacts(mine, NewestFirst);
    FilterMembers(orders, (o: Order) => o.user == user);
    forall o ensures o in OrdersOf(orders, user) <==> o in mine {
      assert o in OrdersOf(orders, user) <==> o in multiset(OrdersOf(orders, user));
      assert o in mine <==> o in multiset(mine);
    }
    var r := OrdersOf(orders, user);
    forall i, j | 0 <= i < j < |r| ensures r[i].createdOn >= r[j].createdOn {
      assert NewestFirst(r[i]) <= NewestFirst(r[j]);
    }
  }

  /** A user's first order is, afterwards, the whole of that user's history. */
  lemma {:induction false} FirstOrder(orders: seq<Order>, o: Order)
    requires forall i :: 0 <= i < |orders| ==> orders[i].user != o.user
    ensures OrdersOf(orders + [o], o.user) == [o]
  {
    var mine := (x: Order) => x.user == o.user;
    FilterAppend(orders, [o], mine);
    FilterNone(orders, mine);
    assert Filter([o], mine) == [o];
    assert Filter(orders + [o], mine) == [o];
    assert SortBy([o], NewestFirst) == Insert(o, [], NewestFirst) == [o];
  }

  lemma AppendKeepsOrderIdsUnique(orders: seq<Order>, o: Order)
    requires UniqueOrderIds(orders) && o.id !in OrderIds(orders)
    ensures UniqueOrderIds(orders + [o])
  {
    forall i | 0 <= i < |orders| ensures orders[i].id != o.id {
      assert orders[i] in orders;
    }
  }

  class OrderService {
    const db: Database
    const carts: CartService

    constructor (db: Database, carts: CartService)
      requires carts.db == db && carts.Wired()
      ensures this.db == db && this.carts == carts
    {
      this.db := db;
      this.carts := carts;
    }

    /** `placeOrder`. A user without a cart fails with UserNotFound when unknown
        and with EmptyCart otherwise, as does an empty cart; the transaction then
        leaves everything as it was. Otherwise one order is saved with the cart's
        lines and total, and the cart is cleared. */
    method PlaceOrder(userId: Id, now: Time, orderId: Id) returns (r: Outcome)
      requires db.Valid() && carts.db == db && carts.Wired()
      requires orderId !in OrderIds(db.orders)
      modifies db
      ensures db.Valid()
      ensures var k := CartRowOf(old(db.carts), userId);
              k < 0 && userId !in UserIds(old(db.users)) ==>
                r == Failed(UserNotFound) && db.orders == old(db.orders) && db.carts == old(db.carts)
      ensures var k := CartRowOf(old(db.carts), userId);
              (k < 0 && userId in UserIds(old(db.users))) || (k >= 0 && old(db.carts)[k].items == []) ==>
                r == Failed(EmptyCart) && db.orders == old(db.orders) && db.carts == old(db.carts)
      ensures var k := CartRowOf(old(db.carts), userId);
              k >= 0 && old(db.carts)[k].items != [] ==>
                && Priced(old(db.carts)[k].items, old(db.products))
                && r == Done
                && db.orders == old(db.orders) + [PlacedOrder(orderId, userId, now, old(db.carts)[k].items, old(db.products))]
                && db.carts == old(db.carts)[k := Cleared(old(db.carts)[k], now)]
                && db.orders[|old(db.orders)|].totalPrice == CartTotal(old(db.carts)[k].items, old(db.products))
      ensures db.users == old(db.users) && db.products == old(db.products)
      ensures db.outbox == old(db.outbox)
    {
      var k := CartRowOf(db.carts, userId);
      if k < 0 {
        var u := carts.users.GetUserById(userId);
        return if u.Err? then Failed(UserNotFound) else Failed(EmptyCart);
      }
      var cart := db.carts[k];
      if cart.items == [] {
        return Failed(EmptyCart);
      }
      assert cart in db.carts;
      assert Priced(cart.items, db.products) by {
        forall i | 0 <= i < |cart.items| ensures cart.items[i].product in ProductIds(db.products) {
          assert cart.items[i] in cart.items;
        }
      }
      var order := PlacedOrder(orderId, userId, now, cart.items, db.products);
      AppendKeepsOrderIdsUnique(db.orders, order);
      db.orders := db.orders + [order];
      var cleared := carts.ClearCart(cart.id, now);
      r := Done;
    }

    /** `getOrdersByUser`: exactly the user's orders, newest first. */
    function GetOrdersByUser(userId: Id): (r: seq<Order>)
      reads db
      ensures multiset(r) == multiset(Filter(db.orders, (o: Order) => o.user == userId))
      ensures forall o :: o in r <==> o in db.orders && o.user == userId
      ensures forall i, j :: 0 <= i < j < |r| ==> r[i].createdOn >= r[j].createdOn
    {
      OrdersOfFacts(db.orders, userId);
      OrdersOf(db.orders, userId)
    }
  }
}
