/** The product catalogue: creation, field replacement, soft delete, the full
    listing in category display order and the featured sample. */
module Catalog {
  import opened Sequences
  import opened Domain
  import opened Store

  /** The page size of the featured sample. */
  const FeaturedLimit: nat := 3

  /** The product that `createProduct` saves for a request: never deleted. */
  function NewProduct(id: Id, req: ProductRequest): Product
  {
    Product(id, req.name, req.description, req.price, req.category,
            req.imageUrl, req.brand, req.inStock, false)
  }

  /** What `updateProduct` does to the row: the seven request fields replace the
      product's own, the id and the deleted flag are kept. */
  function ApplyRequest(p: Product, req: ProductRequest): (q: Product)
    ensures q.id == p.id && q.deleted == p.deleted
  {
    p.(name := req.name, description := req.description, price := req.price,
       category := req.category, imageUrl := req.imageUrl, brand := req.brand,
       inStock := req.inStock)
  }

  /** Position of a category in the display order BOOTS, BALLS, JERSEYS. */
  function CategoryRank(c: Category): int
  {
    match c
    case BOOTS => 0
    case BALLS => 1
    case JERSEYS => 2
  }

  function ProductRank(p: Product): int
  {
    CategoryRank(p.category)
  }

  /** `findAllByDeletedFalse`: the rows not soft-deleted. The query has no
      ORDER BY, so the database may return them in any order; the model takes
      table order. */
  function Live(products: seq<Product>): seq<Product>
  {
    Filter(products, (p: Product) => !p.deleted)
  }

  /** `getAllProducts`: the live rows, stably sorted by category rank. */
  function ListAll(products: seq<Product>): seq<Product>
  {
    SortBy(Live(products), ProductRank)
  }

  /** The products of category `c` in a listing, in the listing's order. */
  function OfCategory(s: seq<Product>, c: Category): seq<Product>
  {
    WithKey(s, ProductRank, CategoryRank(c))
  }

  /** The listing is a permutation of the live rows: nothing added, nothing lost,
      and a product appears in it exactly when it is a row that is not deleted. */
  lemma ListAllContents(products: seq<Product>)
    ensures multiset(ListAll(products)) == multiset(Live(products))
    ensures forall p :: p in ListAll(products) <==> p in products && !p.deleted
  {
    SortByFacts(Live(products), ProductRank);
    FilterMembers(products, (p: Product) => !p.deleted);
    forall p ensures p in ListAll(products) <==> p in Live(products) {
      assert p in ListAll(products) <==> p in multiset(ListAll(products));
      assert p in Live(products) <==> p in multiset(Live(products));
    }
  }

  /** Every BOOTS product comes before every BALLS product, and every BALLS
      product before every JERSEYS product. */
  lemma ListAllCategoryOrder(products: seq<Product>)
    ensures forall i, j :: 0 <= i < |ListAll(products)| && 0 <= j < |ListAll(products)|
              && CategoryRank(ListAll(products)[i].category) < CategoryRank(ListAll(products)[j].category)
              ==> i < j
  {
    SortByFacts(Live(products), ProductRank);
  }

  /** The sort is stable: within one category the listing keeps the order in
      which the repository returned the rows. */
  lemma ListAllStable(products: seq<Product>, c: Category)
    ensures OfCategory(ListAll(products), c) == OfCategory(Live(products), c)
  {
    SortByStable(Live(products), ProductRank, CategoryRank(c));
  }

  /** The candidates of `findRandomInStockProducts`: in stock and not deleted. */
  function Available(products: seq<Product>): seq<Product>
  {
    Filter(products, (p: Product) => p.inStock && !p.deleted)
  }

  /** The featured sample. The database draws a random order; here the draw is
      the rotation `offset`, and the first page of `FeaturedLimit` rows is taken. */
  function Featured(products: seq<Product>, offset: nat): (r: seq<Product>)
    ensures |r| <= FeaturedLimit
    ensures |r| == if |Available(products)| < FeaturedLimit then |Available(products)| else FeaturedLimit
    ensures forall p :: p in r ==> p in products && p.inStock && !p.deleted
  {
    var c := Available(products);
    FilterMembers(products, (p: Product) => p.inStock && !p.deleted);
    if c == [] then []
    else
      var k := offset % |c|;
      var rotated := c[k..] + c[..k];
      assert forall p :: p in rotated ==> p in c;
      var n := if |c| < FeaturedLimit then |c| else FeaturedLimit;
      assert forall i :: 0 <= i < n ==> rotated[..n][i] in c;
      rotated[..n]
  }

  class ProductService {
    const db: Database

    constructor (db: Database)
      ensures this.db == db
    {
      this.db := db;
    }

    /** `getProductById`: the row with that id, deleted or not. */
    function GetProductById(id: Id): (r: Result<Product>)
      reads db
      ensures r.Ok? <==> id in ProductIds(db.products)
      ensures r.Ok? ==> r.value in db.products && r.value.id == id
      ensures r.Err? ==> r.error == ProductNotFound
    {
      match FindProduct(db.products, id)
      case Some(p) => Ok(p)
      case None => Err(ProductNotFound)
    }

    method CreateProduct(req: ProductRequest, id: Id)
      requires db.Valid()
      requires id !in ProductIds(db.products)
      modifies db
      ensures db.Valid()
      ensures db.products == old(db.products) + [NewProduct(id, req)]
      ensures db.users == old(db.users) && db.carts == old(db.carts)
      ensures db.orders == old(db.orders) && db.outbox == old(db.outbox)
    {
      var p := NewProduct(id, req);
      assert ProductIds(db.products + [p]) == ProductIds(db.products) + {id};
      CartsValidMoreProducts(db.carts, db.products, db.products + [p]);
      forall i | 0 <= i < |db.products| ensures db.products[i].id != id {
        assert db.products[i] in db.products;
      }
      db.products := db.products + [p];
    }

    /** `getAllProducts`: every product that is not deleted, once per row,
        BOOTS first, then BALLS, then JERSEYS. */
    function GetAllProducts(): (r: seq<Product>)
      reads db
      ensures multiset(r) == multiset(Live(db.products))
      ensures forall p :: p in r <==> p in db.products && !p.deleted
      ensures forall i, j ::
                0 <= i < |r| && 0 <= j < |r| && CategoryRank(r[i].category) < CategoryRank(r[j].category)
                ==> i < j
    {
      ListAllContents(db.products);
      ListAllCategoryOrder(db.products);
      ListAll(db.products)
    }

    /** `getFeaturedProducts`: up to three products in stock and not deleted. */
    function GetFeaturedProducts(offset: nat): (r: seq<Product>)
      reads db
      ensures |r| == if |Available(db.products)| < FeaturedLimit then |Available(db.products)| else FeaturedLimit
      ensures forall p :: p in r ==> p in db.products && p.inStock && !p.deleted
    {
      Featured(db.products, offset)
    }

    method UpdateProduct(id: Id, req: ProductRequest) returns (r: Outcome)
      requires db.Valid()
      modifies db
      ensures db.Valid()
      ensures id !in ProductIds(old(db.products)) ==>
                r == Failed(ProductNotFound) && db.products == old(db.products)
      ensures id in ProductIds(old(db.products)) ==>
                var k := ProductRow(old(db.products), id);
                r == Done && db.products == old(db.products)[k := ApplyRequest(old(db.products)[k], req)]
      ensures db.users == old(db.users) && db.carts == old(db.carts)
      ensures db.orders == old(db.orders) && db.outbox == old(db.outbox)
    {
      var k := ProductRow(db.products, id);
      if k < 0 {
        return Failed(ProductNotFound);
      }
      var q := ApplyRequest(db.products[k], req);
      ProductIdsReplace(db.products, k, q);
      CartsValidMoreProducts(db.carts, db.products, db.products[k := q]);
      db.products := db.products[k := q];
      r := Done;
    }

    method DeleteProduct(id: Id) returns (r: Outcome)
      requires db.Valid()
      modifies db
      ensures db.Valid()
      ensures id !in ProductIds(old(db.products)) ==>
                r == Failed(ProductNotFound) && db.products == old(db.products)
      ensures id in ProductIds(old(db.products)) ==>
                var k := ProductRow(old(db.products), id);
                r == Done && db.products == old(db.products)[k := old(db.products)[k].(deleted := true)]
      ensures db.users == old(db.users) && db.carts == old(db.carts)
      ensures db.orders == old(db.orders) && db.outbox == old(db.outbox)
    {
      var k := ProductRow(db.products, id);
      if k < 0 {
        return Failed(ProductNotFound);
      }
      var q := db.products[k].(deleted := true);
      ProductIdsReplace(db.products, k, q);
      CartsValidMoreProducts(db.carts, db.products, db.products[k := q]);
      db.products := db.products[k := q];
      r := Done;
    }
  }

  /** Deleting twice leaves the table as deleting once: the second call finds the
      same row and sets a flag that is already set. */
  lemma DeleteIdempotent(products: seq<Product>, id: Id)
    requires UniqueProductIds(products) && id in ProductIds(products)
    ensures var k := ProductRow(products, id);
            var once := products[k := products[k].(deleted := true)];
            ProductRow(once, id) == k && once[k := once[k].(deleted := true)] == once
  {
  }
}
