/** The cart engine: merge-on-add, per-user and store-wide removal of a product,
    clearing, the abandoned-cart sweep and the cart total. */
module Carts {
  import opened Sequences
  import opened Domain
  import opened Store
  import opened Accounts
  import opened Catalog

  /** Carts untouched for longer than this are abandoned. */
  const RetentionDays: int := 7

  // ------------------------------------------------------------ cart lines

  predicate HasLine(items: seq<CartItem>, product: Id)
  {
    exists i :: 0 <= i < |items| && items[i].product == product
  }

  /** The reference behaviour of adding one unit of `product`: every line of the
      product goes up by one, and when there is none a line of quantity 1 is
      appended. */
  function AddLine(items: seq<CartItem>, product: Id): seq<CartItem>
  {
    if HasLine(items, product) then
      seq(|items|, i requires 0 <= i < |items| =>
        if items[i].product == product then items[i].(quantity := items[i].quantity + 1) else items[i])
    else
      items + [CartItem(product, 1)]
  }

  /** `removeAll` of the lines of `product`. */
  function RemoveLines(items: seq<CartItem>, product: Id): seq<CartItem>
  {
    Filter(items, (l: CartItem) => l.product != product)
  }

  /** The number of units of `product` in the cart. */
  function Quantity(items: seq<CartItem>, product: Id): nat
  {
    if items == [] then 0
    else
      var last := items[|items| - 1];
      Quantity(items[..|items| - 1], product) + (if last.product == product then last.quantity else 0)
  }

  /** Every line refers to a product of the table. */
  predicate Priced(items: seq<CartItem>, products: seq<Product>)
  {
    forall i :: 0 <= i < |items| ==> items[i].product in ProductIds(products)
  }

  function LineTotal(line: CartItem, products: seq<Product>): Money
    requires line.product in ProductIds(products)
  {
    PriceOf(products, line.product) * line.quantity
  }

  /** `getCartTotal`: price times quantity, summed from the first line on. */
  function CartTotal(items: seq<CartItem>, products: seq<Product>): Money
    requires Priced(items, products)
  {
    if items == [] then 0
    else CartTotal(items[..|items| - 1], products) + LineTotal(items[|items| - 1], products)
  }

  // ------------------------------------------------------------ the lemmas

  lemma CartTotalAppend(items: seq<CartItem>, line: CartItem, products: seq<Product>)
    requires Priced(items, products) && line.product in ProductIds(products)
    ensures Priced(items + [line], products)
    ensures CartTotal(items + [line], products) == CartTotal(items, products) + LineTotal(line, products)
  {
    assert (items + [line])[..|items|] == items;
  }

  /** The total of two carts' lines put together is the sum of their totals:
      the order in which lines are summed does not matter across the split. */
  lemma {:induction false} CartTotalConcat(a: seq<CartItem>, b: seq<CartItem>, products: seq<Product>)
    requires Priced(a, products) && Priced(b, products)
    ensures Priced(a + b, products)
    ensures CartTotal(a + b, products) == CartTotal(a, products) + CartTotal(b, products)
  {
    if b == [] {
      assert a + b == a;
    } else {
      var n := |b| - 1;
      assert Priced(b[..n], products) by {
        forall i | 0 <= i < n ensures b[..n][i].product in ProductIds(products) {
          assert b[..n][i] == b[i];
        }
      }
      CartTotalConcat(a, b[..n], products);
      assert a + b == (a + b[..n]) + [b[n]];
      CartTotalAppend(a + b[..n], b[n], products);
    }
  }

  /** One more unit on line `k` raises the total by that line's price. */
  lemma {:induction false} BumpTotal(items: seq<CartItem>, k: nat, products: seq<Product>)
    requires Priced(items, products) && k < |items|
    ensures Priced(items[k := items[k].(quantity := items[k].quantity + 1)], products)
    ensures CartTotal(items[k := items[k].(quantity := items[k].quantity + 1)], products)
         == CartTotal(items, products) + PriceOf(products, items[k].product)
  {
    var n := |items| - 1;
    var u := items[k := items[k].(quantity := items[k].quantity + 1)];
    assert Priced(u, products) by {
      forall i | 0 <= i < |u| ensures u[i].product in ProductIds(products) {
        assert u[i].product == items[i].product;
      }
    }
    if k == n {
      assert u[..n] == items[..n];
      LineTotalBump(items[k], products);
    } else {
      BumpTotal(items[..n], k, products);
      assert u[..n] == items[..n][k := items[k].(quantity := items[k].quantity + 1)];
    }
  }

  lemma {:induction false} QuantityUpdate(items: seq<CartItem>, k: nat, line: CartItem, product: Id)
    requires k < |items|
    ensures Quantity(items[k := line], product)
         == Quantity(items, product)
            - (if items[k].product == product then items[k].quantity else 0)
            + (if line.product == product then line.quantity else 0)
  {
    var n := |items| - 1;
    var u := items[k := line];
    if k == n {
      assert u[..n] == items[..n];
    } else {
      QuantityUpdate(items[..n], k, line, product);
      assert u[..n] == items[..n][k := line];
    }
  }

  lemma QuantityAppend(items: seq<CartItem>, line: CartItem, product: Id)
    ensures Quantity(items + [line], product)
         == Quantity(items, product) + (if line.product == product then line.quantity else 0)
  {
    assert (items + [line])[..|items|] == items;
  }

  lemma {:induction false} QuantityAbsent(items: seq<CartItem>, product: Id)
    requires !HasLine(items, product)
    ensures Quantity(items, product) == 0
  {
    if items != [] {
      var n := |items| - 1;
      assert !HasLine(items[..n], product) by {
        forall i | 0 <= i < n ensures items[..n][i].product != product {
          assert items[..n][i] == items[i];
        }
      }
      QuantityAbsent(items[..n], product);
    }
  }

  /** Under one line per product, the reference `AddLine` raises exactly the line
      found at `k` and leaves every other line as it was. */
  lemma AddLineAt(items: seq<CartItem>, product: Id, k: nat)
    requires OneLinePerProduct(items) && k < |items| && items[k].product == product
    ensures AddLine(items, product) == items[k := items[k].(quantity := items[k].quantity + 1)]
  {
    var r := AddLine(items, product);
    var u := items[k := items[k].(quantity := items[k].quantity + 1)];
    assert |r| == |u|;
    forall i | 0 <= i < |r| ensures r[i] == u[i] {
      if i != k {
        assert items[i].product != product by {
          if i < k { assert items[i].product != items[k].product; }
          else { assert items[k].product != items[i].product; }
        }
      }
    }
  }

  /** Adding a product that already has a line keeps the number of lines and
      raises that line, and only that line, by exactly one. */
  lemma AddLineExisting(items: seq<CartItem>, product: Id, k: nat)
    requires OneLinePerProduct(items) && k < |items| && items[k].product == product
    ensures |AddLine(items, product)| == |items|
    ensures AddLine(items, product)[k] == CartItem(product, items[k].quantity + 1)
    ensures forall j :: 0 <= j < |items| && j != k ==> AddLine(items, product)[j] == items[j]
  {
    AddLineAt(items, product, k);
  }

  /** Adding a product with no line appends exactly one line of quantity 1. */
  lemma AddLineNew(items: seq<CartItem>, product: Id)
    requires !HasLine(items, product)
    ensures AddLine(items, product) == items + [CartItem(product, 1)]
    ensures |AddLine(items, product)| == |items| + 1
  {
  }

  /** Adding keeps one line per product; afterwards the product has a line, and
      every line is either a line of that product with a positive quantity or a
      line that was there before. */
  lemma AddLineWellFormed(items: seq<CartItem>, product: Id)
    requires OneLinePerProduct(items)
    ensures OneLinePerProduct(AddLine(items, product))
    ensures HasLine(AddLine(items, product), product)
    ensures forall l :: l in AddLine(items, product) ==>
              (l.product == product && l.quantity >= 1) || l in items
  {
    var r := AddLine(items, product);
    if HasLine(items, product) {
      var k :| 0 <= k < |items| && items[k].product == product;
      AddLineAt(items, product, k);
      assert r[k].product == product;
      forall l | l in r ensures (l.product == product && l.quantity >= 1) || l in items {
        var i :| 0 <= i < |r| && r[i] == l;
        if i != k {
          assert l == items[i];
        }
      }
    } else {
      assert r[|items|].product == product;
      forall i, j | 0 <= i < j < |r| ensures r[i].product != r[j].product {
        if j == |items| {
          assert r[i] == items[i];
        }
      }
    }
  }

  /** One add raises the quantity of that product by one and no other. */
  lemma AddLineQuantity(items: seq<CartItem>, product: Id, other: Id)
    requires OneLinePerProduct(items)
    ensures Quantity(AddLine(items, product), other)
         == Quantity(items, other) + (if other == product then 1 else 0)
  {
    if HasLine(items, product) {
      var k :| 0 <= k < |items| && items[k].product == product;
      AddLineAt(items, product, k);
      QuantityUpdate(items, k, items[k].(quantity := items[k].quantity + 1), other);
    } else {
      QuantityAppend(items, CartItem(product, 1), other);
    }
  }

  lemma LineTotalBump(line: CartItem, products: seq<Product>)
    requires line.product in ProductIds(products)
    ensures LineTotal(line.(quantity := line.quantity + 1), products)
         == LineTotal(line, products) + PriceOf(products, line.product)
  {
    var price := PriceOf(products, line.product);
    assert price * (line.quantity + 1) == price * line.quantity + price;
  }

  /** One add raises the total by exactly the product's current price. */
  lemma {:induction false} AddLineTotal(items: seq<CartItem>, product: Id, products: seq<Product>)
    requires OneLinePerProduct(items) && Priced(items, products)
    requires product in ProductIds(products)
    ensures Priced(AddLine(items, product), products)
    ensures CartTotal(AddLine(items, product), products)
         == CartTotal(items, products) + PriceOf(products, product)
  {
    if HasLine(items, product) {
      var k :| 0 <= k < |items| && items[k].product == product;
      AddLineAt(items, product, k);
      BumpTotal(items, k, products);
    } else {
      var line := CartItem(product, 1);
      CartTotalAppend(items, line, products);
      assert LineTotal(line, products) == PriceOf(products, product);
    }
  }

  /** `n` successive adds of one product. */
  function AddTimes(items: seq<CartItem>, product: Id, n: nat): seq<CartItem>
  {
    if n == 0 then items else AddLine(AddTimes(items, product, n - 1), product)
  }

  /** The merge invariant: after `n` adds of a product to any cart the cart still
      has one line per product, and its quantity of that product has grown by `n`
      while every other product's quantity is unchanged. */
  lemma {:induction false} AddTimesQuantity(items: seq<CartItem>, product: Id, n: nat, other: Id)
    requires OneLinePerProduct(items)
    ensures OneLinePerProduct(AddTimes(items, product, n))
    ensures Quantity(AddTimes(items, product, n), other)
         == Quantity(items, other) + (if other == product then n else 0)
  {
    if n > 0 {
      var before := AddTimes(items, product, n - 1);
      AddTimesQuantity(items, product, n - 1, other);
      AddLineWellFormed(before, product);
      AddLineQuantity(before, product, other);
    }
  }

  /** From an empty cart, `n` adds of one product leave exactly one line, of quantity `n`. */
  lemma {:induction false} AddTimesFromEmpty(product: Id, n: nat)
    requires n >= 1
    ensures AddTimes([], product, n) == [CartItem(product, n)]
  {
    if n > 1 {
      AddTimesFromEmpty(product, n - 1);
      var before := [CartItem(product, n - 1)];
      assert before[0].product == product;
      AddLineAt(before, product, 0);
    }
  }

  /** Removal keeps exactly the lines of the other products. */
  lemma RemoveLinesFacts(items: seq<CartItem>, product: Id)
    ensures !HasLine(RemoveLines(items, product), product)
    ensures forall l :: l in RemoveLines(items, product) <==> l in items && l.product != product
  {
    FilterMembers(items, (l: CartItem) => l.product != product);
    var r := RemoveLines(items, product);
    forall i | 0 <= i < |r| ensures r[i].product != product {
      assert r[i] in r;
    }
  }

  lemma {:induction false} RemoveLinesOneLine(items: seq<CartItem>, product: Id)
    requires OneLinePerProduct(items)
    ensures OneLinePerProduct(RemoveLines(items, product))
  {
    if items != [] {
      var rest := items[1..];
      assert OneLinePerProduct(rest) by {
        forall i, j | 0 <= i < j < |rest| ensures rest[i].product != rest[j].product {
          assert rest[i] == items[i + 1] && rest[j] == items[j + 1];
        }
      }
      RemoveLinesOneLine(rest, product);
      var tail := RemoveLines(rest, product);
      assert RemoveLines(items, product)
          == (if items[0].product != product then [items[0]] else []) + tail;
      FilterMembers(rest, (l: CartItem) => l.product != product);
      forall j | 0 <= j < |tail| ensures tail[j].product != items[0].product {
        assert tail[j] in tail;
        var m :| 0 <= m < |rest| && rest[m] == tail[j];
        assert items[m + 1] == tail[j];
      }
    }
  }

  lemma {:induction false} RemoveLinesKeepsOthers(items: seq<CartItem>, product: Id, other: Id)
    requires other != product
    ensures Quantity(RemoveLines(items, product), other) == Quantity(items, other)
  {
    if items != [] {
      var n := |items| - 1;
      var front := items[..n];
      var last := items[n];
      RemoveLinesKeepsOthers(front, product, other);
      assert front + [last] == items;
      FilterAppend(front, [last], (l: CartItem) => l.product != product);
      if last.product != product {
        assert Filter([last], (l: CartItem) => l.product != product) == [last];
        QuantityAppend(RemoveLines(front, product), last, other);
      } else {
        assert Filter([last], (l: CartItem) => l.product != product) == [];
        assert RemoveLines(items, product) == RemoveLines(front, product);
      }
    }
  }

  /** After removal the cart holds none of the product and every other product in
      the same quantity. */
  lemma RemoveLinesQuantity(items: seq<CartItem>, product: Id, other: Id)
    ensures Quantity(RemoveLines(items, product), other)
         == if other == product then 0 else Quantity(items, other)
  {
    if other == product {
      RemoveLinesFacts(items, product);
      QuantityAbsent(RemoveLines(items, product), product);
    } else {
      RemoveLinesKeepsOthers(items, product, other);
    }
  }

  // -------------------------------------------------------- abandoned carts

  /** `now.minusDays(7)`. */
  function Cutoff(now: Time): Time
  {
    now - RetentionDays * SecondsPerDay
  }

  /** `findByLastUpdatedBefore(cutoff)` selects this cart. */
  predicate Expired(cart: Cart, now: Time)
  {
    cart.lastUpdated < Cutoff(now)
  }

  /** What `clearCart` leaves of a cart: no lines, refreshed timestamp. */
  function Cleared(cart: Cart, now: Time): Cart
  {
    cart.(items := [], lastUpdated := now)
  }

  /** The ids of the expired carts, in storage order. */
  function ExpiredIds(carts: seq<Cart>, now: Time): seq<Id>
  {
    if carts == [] then []
    else (if Expired(carts[0], now) then [carts[0].id] else []) + ExpiredIds(carts[1..], now)
  }

  /** The reference result of a sweep: every expired cart cleared, the others untouched. */
  function Sweep(carts: seq<Cart>, now: Time): (r: seq<Cart>)
    ensures |r| == |carts|
  {
    seq(|carts|, i requires 0 <= i < |carts| =>
      if Expired(carts[i], now) then Cleared(carts[i], now) else carts[i])
  }

  lemma {:induction false} ExpiredIdsMembers(carts: seq<Cart>, now: Time)
    ensures |ExpiredIds(carts, now)| <= |carts|
    ensures forall id :: id in ExpiredIds(carts, now) ==> id in CartIds(carts)
    ensures forall id :: id in ExpiredIds(carts, now) <==>
              exists k :: 0 <= k < |carts| && carts[k].id == id && Expired(carts[k], now)
  {
    if carts != [] {
      ExpiredIdsMembers(carts[1..], now);
      forall id | (exists k :: 0 <= k < |carts| && carts[k].id == id && Expired(carts[k], now))
        ensures id in ExpiredIds(carts, now)
      {
        var k :| 0 <= k < |carts| && carts[k].id == id && Expired(carts[k], now);
        if k > 0 {
          assert carts[1..][k - 1] == carts[k];
        }
      }
      forall id | id in ExpiredIds(carts[1..], now)
        ensures exists k :: 0 <= k < |carts| && carts[k].id == id && Expired(carts[k], now)
      {
        var k :| 0 <= k < |carts[1..]| && carts[1..][k].id == id && Expired(carts[1..][k], now);
        assert carts[k + 1] == carts[1..][k];
      }
      forall id | id in ExpiredIds(carts, now) ensures id in CartIds(carts) {
        var k :| 0 <= k < |carts| && carts[k].id == id && Expired(carts[k], now);
        assert carts[k] in carts;
      }
    }
  }

  lemma {:induction false} ExpiredIdsNone(carts: seq<Cart>, now: Time)
    requires forall k :: 0 <= k < |carts| ==> !Expired(carts[k], now)
    ensures ExpiredIds(carts, now) == []
  {
    if carts != [] {
      assert forall k :: 0 <= k < |carts[1..]| ==> carts[1..][k] == carts[k + 1];
      ExpiredIdsNone(carts[1..], now);
    }
  }

  /** With unique ids, a cart's id is among the expired ids exactly when it is expired. */
  lemma ExpiredIdsExact(carts: seq<Cart>, now: Time, k: nat)
    requires UniqueCartIds(carts) && k < |carts|
    ensures carts[k].id in ExpiredIds(carts, now) <==> Expired(carts[k], now)
  {
    ExpiredIdsMembers(carts, now);
  }

  /** A second sweep at the same clock finds nothing to clear and changes nothing. */
  lemma SweepIdempotent(carts: seq<Cart>, now: Time)
    ensures ExpiredIds(Sweep(carts, now), now) == []
    ensures Sweep(Sweep(carts, now), now) == Sweep(carts, now)
  {
    ExpiredIdsNone(Sweep(carts, now), now);
  }

  /** The sweep clears exactly the expired carts: each swept cart is either
      expired before and empty with a fresh timestamp after, or not expired and
      unchanged. */
  lemma SweepExact(carts: seq<Cart>, now: Time, k: nat)
    requires k < |carts|
    ensures Expired(carts[k], now) ==> Sweep(carts, now)[k].items == [] && Sweep(carts, now)[k].lastUpdated == now
    ensures !Expired(carts[k], now) ==> Sweep(carts, now)[k] == carts[k]
    ensures Sweep(carts, now)[k].id == carts[k].id && Sweep(carts, now)[k].user == carts[k].user
  {
  }

  /** Clearing is idempotent: clearing a cleared cart at the same clock changes nothing. */
  lemma ClearedTwice(cart: Cart, now: Time)
    ensures Cleared(Cleared(cart, now), now) == Cleared(cart, now)
    ensures Cleared(cart, now).items == []
  {
  }

  // ------------------------------------------------ whole-store operations

  /** Some cart holds a line of `product` (`cartItemRepository.findByProductId` is non-empty). */
  predicate AnyCartHolds(carts: seq<Cart>, product: Id)
  {
    exists i :: 0 <= i < |carts| && HasLine(carts[i].items, product)
  }

  /** `addToCart` on the cart table: the user's cart (created when missing, with
      the id `freshId`) gets one more unit of `product` and the clock reading. */
  function AddedTo(carts: seq<Cart>, user: Id, product: Id, now: Time, freshId: Id): seq<Cart>
  {
    var k := CartRowOf(carts, user);
    if k >= 0 then carts[k := carts[k].(items := AddLine(carts[k].items, product), lastUpdated := now)]
    else carts + [Cart(freshId, user, AddLine([], product), now)]
  }

  /** What `deleteCartItemFullyFromDb` does to one cart. */
  function Strip(cart: Cart, product: Id, now: Time): Cart
  {
    if HasLine(cart.items, product) then cart.(items := RemoveLines(cart.items, product), lastUpdated := now)
    else cart
  }

  function StripAll(carts: seq<Cart>, product: Id, now: Time): (r: seq<Cart>)
    ensures |r| == |carts|
  {
    seq(|carts|, i requires 0 <= i < |carts| => Strip(carts[i], product, now))
  }

  lemma AddLineKeepsWellFormed(cart: Cart, products: seq<Product>, product: Id, now: Time)
    requires WellFormedCart(cart, products) && product in ProductIds(products)
    ensures WellFormedCart(cart.(items := AddLine(cart.items, product), lastUpdated := now), products)
  {
    AddLineWellFormed(cart.items, product);
  }

  lemma RemoveLinesKeepsWellFormed(cart: Cart, products: seq<Product>, product: Id, now: Time)
    requires WellFormedCart(cart, products)
    ensures WellFormedCart(cart.(items := RemoveLines(cart.items, product), lastUpdated := now), products)
  {
    RemoveLinesFacts(cart.items, product);
    RemoveLinesOneLine(cart.items, product);
  }

  /** Replacing a cart by a well-formed one with the same id and owner keeps the table valid. */
  lemma CartsValidReplace(carts: seq<Cart>, products: seq<Product>, k: nat, c: Cart)
    requires CartsValid(carts, products) && k < |carts|
    requires c.id == carts[k].id && c.user == carts[k].user && WellFormedCart(c, products)
    ensures CartsValid(carts[k := c], products)
  {
    var u := carts[k := c];
    forall x | x in u ensures WellFormedCart(x, products) {
      var i :| 0 <= i < |u| && u[i] == x;
      if i != k { assert x == carts[i]; }
    }
  }

  /** Appending a well-formed cart with a new id for a user without a cart keeps the table valid. */
  lemma CartsValidAppend(carts: seq<Cart>, products: seq<Product>, c: Cart)
    requires CartsValid(carts, products) && WellFormedCart(c, products)
    requires c.id !in CartIds(carts)
    requires forall k :: 0 <= k < |carts| ==> carts[k].user != c.user
    ensures CartsValid(carts + [c], products)
  {
    forall i | 0 <= i < |carts| ensures carts[i].id != c.id {
      assert carts[i] in carts;
    }
  }

  lemma StripAllValid(carts: seq<Cart>, products: seq<Product>, product: Id, now: Time)
    requires CartsValid(carts, products)
    ensures CartsValid(StripAll(carts, product, now), products)
  {
    var r := StripAll(carts, product, now);
    forall x | x in r ensures WellFormedCart(x, products) {
      var i :| 0 <= i < |r| && r[i] == x;
      assert carts[i] in carts;
      RemoveLinesKeepsWellFormed(carts[i], products, product, now);
    }
  }

  /** After `deleteCartItemFullyFromDb` no cart holds the product, and every cart
      keeps its id, its owner and its quantity of every other product. */
  lemma StripAllFacts(carts: seq<Cart>, product: Id, now: Time, k: nat, other: Id)
    requires k < |carts|
    ensures !AnyCartHolds(StripAll(carts, product, now), product)
    ensures StripAll(carts, product, now)[k].id == carts[k].id
    ensures StripAll(carts, product, now)[k].user == carts[k].user
    ensures other != product ==>
              Quantity(StripAll(carts, product, now)[k].items, other) == Quantity(carts[k].items, other)
    ensures !HasLine(carts[k].items, product) ==> StripAll(carts, product, now)[k] == carts[k]
  {
    var r := StripAll(carts, product, now);
    forall i | 0 <= i < |r| ensures !HasLine(r[i].items, product) {
      RemoveLinesFacts(carts[i].items, product);
    }
    RemoveLinesQuantity(carts[k].items, product, other);
  }

  /** Where the user's cart is after `addToCart`: in its old row, or appended. */
  lemma AddedToRow(carts: seq<Cart>, user: Id, product: Id, now: Time, freshId: Id)
    ensures var after := AddedTo(carts, user, product, now, freshId);
            var k := CartRowOf(carts, user);
            var before := if k >= 0 then carts[k].items else [];
            && CartRowOf(after, user) == (if k >= 0 then k else |carts|)
            && after[CartRowOf(after, user)].items == AddLine(before, product)
            && after[CartRowOf(after, user)].lastUpdated == now
            && (forall j :: 0 <= j < |carts| && carts[j].user != user ==> after[j] == carts[j])
  {
    var after := AddedTo(carts, user, product, now, freshId);
    var k := CartRowOf(carts, user);
    if k >= 0 {
      assert CartRowOf(after, user) == k by {
        assert after[k].user == user;
        forall j | 0 <= j < k ensures after[j].user != user {
          assert after[j] == carts[j];
        }
      }
    } else {
      assert CartRowOf(after, user) == |carts| by {
        assert after[|carts|].user == user;
        forall j | 0 <= j < |carts| ensures after[j].user != user {
          assert after[j] == carts[j];
        }
      }
    }
  }

  /** `addToCart` raises the user's quantity of the product by one, leaves every
      other product's quantity alone, adds the product's price to the cart total,
      and touches no other user's cart. */
  lemma AddedToFacts(carts: seq<Cart>, products: seq<Product>, user: Id, product: Id,
                     now: Time, freshId: Id, other: Id)
    requires CartsValid(carts, products) && product in ProductIds(products)
    ensures var after := AddedTo(carts, user, product, now, freshId);
            var k := CartRowOf(carts, user);
            var k' := CartRowOf(after, user);
            var before := if k >= 0 then carts[k].items else [];
            && 0 <= k' && after[k'].lastUpdated == now
            && OneLinePerProduct(after[k'].items)
            && Quantity(after[k'].items, other) == Quantity(before, other) + (if other == product then 1 else 0)
            && Priced(before, products) && Priced(after[k'].items, products)
            && CartTotal(after[k'].items, products) == CartTotal(before, products) + PriceOf(products, product)
            && (forall j :: 0 <= j < |carts| && carts[j].user != user ==> after[j] == carts[j])
  {
    var k := CartRowOf(carts, user);
    var before := if k >= 0 then carts[k].items else [];
    AddedToRow(carts, user, product, now, freshId);
    assert OneLinePerProduct(before) && Priced(before, products) by {
      if k >= 0 {
        assert carts[k] in carts;
        forall i | 0 <= i < |before| ensures before[i].product in ProductIds(products) {
          assert before[i] in carts[k].items;
        }
      }
    }
    AddLineWellFormed(before, product);
    AddLineQuantity(before, product, other);
    AddLineTotal(before, product, products);
  }

  /** The cart table after `clearCart` was called on each id of `ids`. */
  function ClearedFor(carts: seq<Cart>, ids: seq<Id>, now: Time): (r: seq<Cart>)
    ensures |r| == |carts|
  {
    seq(|carts|, k requires 0 <= k < |carts| =>
      if carts[k].id in ids then Cleared(carts[k], now) else carts[k])
  }

  /** One more `clearCart` on an id of the table clears its one cart and no other. */
  lemma ClearStep(carts: seq<Cart>, ids: seq<Id>, id: Id, now: Time)
    requires UniqueCartIds(carts)
    requires id in CartIds(carts)
    ensures var cur := ClearedFor(carts, ids, now);
            && id in CartIds(cur)
            && cur[CartRow(cur, id) := Cleared(cur[CartRow(cur, id)], now)] == ClearedFor(carts, ids + [id], now)
  {
    var cur := ClearedFor(carts, ids, now);
    var c :| c in carts && c.id == id;
    var m :| 0 <= m < |carts| && carts[m] == c;
    assert cur[m] in cur;
  }

  /** Clearing every expired id is the sweep. */
  lemma ClearedForExpired(carts: seq<Cart>, now: Time)
    requires UniqueCartIds(carts)
    ensures ClearedFor(carts, ExpiredIds(carts, now), now) == Sweep(carts, now)
  {
    forall k | 0 <= k < |carts|
      ensures ClearedFor(carts, ExpiredIds(carts, now), now)[k] == Sweep(carts, now)[k]
    {
      ExpiredIdsExact(carts, now, k);
    }
  }

  /** `findFirst` over the lines of a cart: the first line of `product`, or -1. */
  method FindLine(items: seq<CartItem>, product: Id) returns (k: int)
    ensures -1 <= k < |items|
    ensures k == -1 <==> !HasLine(items, product)
    ensures k >= 0 ==> items[k].product == product
    ensures k >= 0 ==> forall j :: 0 <= j < k ==> items[j].product != product
  {
    k := 0;
    while k < |items|
      invariant 0 <= k <= |items|
      invariant forall j :: 0 <= j < k ==> items[j].product != product
    {
      if items[k].product == product {
        return;
      }
      k := k + 1;
    }
    k := -1;
  }

  /** The merge step of `addToCart`: the line found by `findFirst` goes up by
      one, or a line of quantity 1 is appended. */
  method AddUnit(items: seq<CartItem>, product: Id) returns (result: seq<CartItem>)
    requires OneLinePerProduct(items)
    ensures result == AddLine(items, product)
  {
    var i := FindLine(items, product);
    if i >= 0 {
      result := items[i := items[i].(quantity := items[i].quantity + 1)];
      AddLineAt(items, product, i);
    } else {
      result := items + [CartItem(product, 1)];
    }
  }

  class CartService {
    const db: Database
    const users: UserService
    const catalog: ProductService

    constructor (db: Database, users: UserService, catalog: ProductService)
      requires users.db == db && catalog.db == db
      ensures this.db == db && this.users == users && this.catalog == catalog
    {
      this.db := db;
      this.users := users;
      this.catalog := catalog;
    }

    /** The collaborating services work on the same store. */
    predicate Wired()
    {
      users.db == db && catalog.db == db
    }

    /** `initCart`: saves an empty cart for a user who has none. */
    method InitCart(userId: Id, cartId: Id, now: Time) returns (cart: Cart)
      requires db.Valid()
      requires cartId !in CartIds(db.carts)
      requires CartRowOf(db.carts, userId) == -1
      modifies db
      ensures db.Valid()
      ensures cart == Cart(cartId, userId, [], now)
      ensures db.carts == old(db.carts) + [cart]
      ensures db.users == old(db.users) && db.products == old(db.products)
      ensures db.orders == old(db.orders) && db.outbox == old(db.outbox)
    {
      cart := Cart(cartId, userId, [], now);
      CartsValidAppend(db.carts, db.products, cart);
      db.carts := db.carts + [cart];
    }

    /** `getCartByUserId`: the user's cart, or a new empty one for a known user. */
    method GetCartByUserId(userId: Id, cartId: Id, now: Time) returns (r: Result<Cart>)
      requires db.Valid() && Wired()
      requires cartId !in CartIds(db.carts)
      modifies db
      ensures db.Valid()
      ensures CartRowOf(old(db.carts), userId) >= 0 ==>
                r == Ok(old(db.carts)[CartRowOf(old(db.carts), userId)]) && db.carts == old(db.carts)
      ensures CartRowOf(old(db.carts), userId) < 0 && userId !in UserIds(db.users) ==>
                r == Err(UserNotFound) && db.carts == old(db.carts)
      ensures CartRowOf(old(db.carts), userId) < 0 && userId in UserIds(db.users) ==>
                r == Ok(Cart(cartId, userId, [], now)) && db.carts == old(db.carts) + [r.value]
      ensures db.users == old(db.users) && db.products == old(db.products)
      ensures db.orders == old(db.orders) && db.outbox == old(db.outbox)
    {
      var k := CartRowOf(db.carts, userId);
      if k >= 0 {
        return Ok(db.carts[k]);
      }
      var u := users.GetUserById(userId);
      if u.Err? {
        return Err(UserNotFound);
      }
      var cart := InitCart(userId, cartId, now);
      r := Ok(cart);
    }

    /** `addToCart`: unknown user, then unknown product, fail without change;
        otherwise the user's cart (created if missing) gains one unit. */
    method AddToCart(userId: Id, productId: Id, now: Time, cartId: Id) returns (r: Outcome)
      requires db.Valid() && Wired()
      requires cartId !in CartIds(db.carts)
      modifies db
      ensures db.Valid()
      ensures userId !in UserIds(old(db.users)) ==>
                r == Failed(UserNotFound) && db.carts == old(db.carts)
      ensures userId in UserIds(old(db.users)) && productId !in ProductIds(old(db.products)) ==>
                r == Failed(ProductNotFound) && db.carts == old(db.carts)
      ensures userId in UserIds(old(db.users)) && productId in ProductIds(old(db.products)) ==>
                r == Done && db.carts == AddedTo(old(db.carts), userId, productId, now, cartId)
      ensures db.users == old(db.users) && db.products == old(db.products)
      ensures db.orders == old(db.orders) && db.outbox == old(db.outbox)
    {
      var u := users.GetUserById(userId);
      if u.Err? {
        return Failed(UserNotFound);
      }
      var p := catalog.GetProductById(productId);
      if p.Err? {
        return Failed(ProductNotFound);
      }
      var k := CartRowOf(db.carts, userId);
      if k < 0 {
        var created := InitCart(userId, cartId, now);
        k := |db.carts| - 1;
      }
      var cart := db.carts[k];
      assert cart in db.carts;
      var items := AddUnit(cart.items, productId);
      AddLineKeepsWellFormed(cart, db.products, productId, now);
      CartsValidReplace(db.carts, db.products, k, cart.(items := items, lastUpdated := now));
      db.carts := db.carts[k := cart.(items := items, lastUpdated := now)];
      r := Done;
    }

    /** `deleteCartItem`: when some cart holds the product, the user's cart loses
        its lines of it and takes the clock reading; a user without a cart then
        fails. */
    method DeleteCartItem(productId: Id, userId: Id, now: Time) returns (r: Outcome)
      requires db.Valid()
      modifies db
      ensures db.Valid()
      ensures !AnyCartHolds(old(db.carts), productId) ==> r == Done && db.carts == old(db.carts)
      ensures AnyCartHolds(old(db.carts), productId) && CartRowOf(old(db.carts), userId) < 0 ==>
                r == Failed(NoCartForUser) && db.carts == old(db.carts)
      ensures AnyCartHolds(old(db.carts), productId) && CartRowOf(old(db.carts), userId) >= 0 ==>
                var k := CartRowOf(old(db.carts), userId);
                r == Done
                && db.carts == old(db.carts)[k := old(db.carts)[k].(items := RemoveLines(old(db.carts)[k].items, productId), lastUpdated := now)]
      ensures db.users == old(db.users) && db.products == old(db.products)
      ensures db.orders == old(db.orders) && db.outbox == old(db.outbox)
    {
      if !AnyCartHolds(db.carts, productId) {
        return Done;
      }
      var k := CartRowOf(db.carts, userId);
      if k < 0 {
        return Failed(NoCartForUser);
      }
      var cart := db.carts[k];
      assert cart in db.carts;
      RemoveLinesKeepsWellFormed(cart, db.products, productId, now);
      CartsValidReplace(db.carts, db.products, k, cart.(items := RemoveLines(cart.items, productId), lastUpdated := now));
      db.carts := db.carts[k := cart.(items := RemoveLines(cart.items, productId), lastUpdated := now)];
      r := Done;
    }

    /** `deleteCartItemFullyFromDb`: every cart holding the product loses it. */
    method DeleteCartItemFullyFromDb(productId: Id, now: Time)
      requires db.Valid()
      modifies db
      ensures db.Valid()
      ensures db.carts == StripAll(old(db.carts), productId, now)
      ensures db.users == old(db.users) && db.products == old(db.products)
      ensures db.orders == old(db.orders) && db.outbox == old(db.outbox)
    {
      StripAllValid(db.carts, db.products, productId, now);
      var i := 0;
      while i < |db.carts|
        invariant 0 <= i <= |db.carts| == |old(db.carts)|
        invariant forall j :: 0 <= j < |db.carts| ==>
                    db.carts[j] == if j < i then Strip(old(db.carts)[j], productId, now) else old(db.carts)[j]
        invariant db.users == old(db.users) && db.products == old(db.products)
        invariant db.orders == old(db.orders) && db.outbox == old(db.outbox)
      {
        if HasLine(db.carts[i].items, productId) {
          db.carts := db.carts[i := db.carts[i].(items := RemoveLines(db.carts[i].items, productId), lastUpdated := now)];
        }
        i := i + 1;
      }
      assert db.carts == StripAll(old(db.carts), productId, now);
    }

    /** `getCartTotal`. */
    function GetCartTotal(cart: Cart): (total: Money)
      reads db
      requires Priced(cart.items, db.products)
      ensures cart.items == [] ==> total == 0
    {
      CartTotal(cart.items, db.products)
    }

    /** `clearCart`: an unknown id fails; otherwise the cart is emptied and takes the clock reading. */
    method ClearCart(cartId: Id, now: Time) returns (r: Outcome)
      requires db.Valid()
      modifies db
      ensures db.Valid()
      ensures cartId !in CartIds(old(db.carts)) ==> r == Failed(CartNotFound) && db.carts == old(db.carts)
      ensures cartId in CartIds(old(db.carts)) ==>
                var k := CartRow(old(db.carts), cartId);
                r == Done && db.carts == old(db.carts)[k := Cleared(old(db.carts)[k], now)]
      ensures db.users == old(db.users) && db.products == old(db.products)
      ensures db.orders == old(db.orders) && db.outbox == old(db.outbox)
    {
      var k := CartRow(db.carts, cartId);
      if k < 0 {
        return Failed(CartNotFound);
      }
      CartsValidReplace(db.carts, db.products, k, Cleared(db.carts[k], now));
      db.carts := db.carts[k := Cleared(db.carts[k], now)];
      r := Done;
    }

    /** `cleanUpOldCarts`: clears every cart untouched for longer than the
        retention window and reports how many it cleared. */
    method CleanUpOldCarts(now: Time) returns (cleared: nat)
      requires db.Valid()
      modifies db
      ensures db.Valid()
      ensures db.carts == Sweep(old(db.carts), now)
      ensures cleared == |ExpiredIds(old(db.carts), now)|
      ensures db.users == old(db.users) && db.products == old(db.products)
      ensures db.orders == old(db.orders) && db.outbox == old(db.outbox)
    {
      var expired := ExpiredIds(db.carts, now);
      ExpiredIdsMembers(db.carts, now);
      assert db.carts == ClearedFor(db.carts, expired[..0], now);
      var i := 0;
      while i < |expired|
        invariant 0 <= i <= |expired|
        invariant expired == ExpiredIds(old(db.carts), now)
        invariant db.Valid()
        invariant db.carts == ClearedFor(old(db.carts), expired[..i], now)
        invariant db.users == old(db.users) && db.products == old(db.products)
        invariant db.orders == old(db.orders) && db.outbox == old(db.outbox)
      {
        var id := expired[i];
        assert id in expired;
        ghost var cur := db.carts;
        ClearStep(old(db.carts), expired[..i], id, now);
        var _ := ClearCart(id, now);
        assert db.carts == cur[CartRow(cur, id) := Cleared(cur[CartRow(cur, id)], now)];
        assert expired[..i + 1] == expired[..i] + [id];
        i := i + 1;
      }
      assert expired[..i] == expired;
      ClearedForExpired(old(db.carts), now);
      cleared := |expired|;
    }
  }
}
