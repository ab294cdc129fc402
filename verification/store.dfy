/** The relational store behind the repositories, held in memory: one table per
    entity, rows in storage order, plus the messages handed to the e-mail sink. */
module Store {
  import opened Domain

  class Database {
    var users: seq<User>
    var products: seq<Product>
    var carts: seq<Cart>
    var orders: seq<Order>
    /** Welcome e-mails requested so far (the sink never reports failures back). */
    var outbox: seq<Email>

    predicate Valid()
      reads this
    {
      Consistent(users, products, carts, orders)
    }

    constructor ()
      ensures Valid()
      ensures users == [] && products == [] && carts == [] && orders == [] && outbox == []
    {
      users, products, carts, orders, outbox := [], [], [], [], [];
    }
  }
}
