/** The product controller: the query `getProducts` builds from the request and
    the not-found reply of `getProduct`. */
module ProductController {
  import opened Wrappers
  import opened Text
  import opened Ids
  import opened ProductModel
  import opened Store
  import opened ErrorHandler
  import opened ProductService

  /** The query-string parameters. Price bounds are the numbers of non-empty
      parameters; None means absent or empty (both falsy). */
  datatype ProductQuery = ProductQuery(
    category: Option<string>,
    condition: Option<string>,
    minPrice: Option<int>,
    maxPrice: Option<int>,
    search: Option<string>)

  predicate Supplied(v: Option<string>)
  {
    v.Some? && v.value != ""
  }

  /** A category or condition constrains only when supplied and not "All". */
  function Choice(v: Option<string>): (r: Option<string>)
    ensures r.Some? <==> Supplied(v) && v.value != "All"
    ensures r.Some? ==> r == v
  {
    if Supplied(v) && v.value != "All" then v else None
  }

  /** The filter object `getProducts` passes to the service. */
  function BuildFilter(q: ProductQuery): (f: ProductFilter)
    ensures f.category == Choice(q.category) && f.condition == Choice(q.condition)
    ensures f.minPrice == q.minPrice && f.maxPrice == q.maxPrice
    ensures f.search.Some? <==> Supplied(q.search)
    ensures f.search.Some? ==> f.search == q.search
  {
    ProductFilter(Choice(q.category), Choice(q.condition), q.minPrice, q.maxPrice,
                  if Supplied(q.search) then q.search else None)
  }

  /** What the request asks for, read directly from its parameters. */
  predicate Requested(q: ProductQuery, p: Product)
  {
    && (!Supplied(q.category) || q.category.value == "All" || p.category == q.category.value)
    && (!Supplied(q.condition) || q.condition.value == "All" || p.condition == q.condition.value)
    && (q.minPrice.None? || q.minPrice.value <= p.price)
    && (q.maxPrice.None? || p.price <= q.maxPrice.value)
    && (!Supplied(q.search) ||
        Contains(ToLower(p.title), ToLower(q.search.value)) ||
        Contains(ToLower(p.description), ToLower(q.search.value)))
  }

  /** The built filter admits exactly what the request asks for. */
  lemma BuildFilterMeansRequested(q: ProductQuery, p: Product)
    ensures MatchesFilter(BuildFilter(q), p) <==> Requested(q, p)
  {
  }

  /** `getProducts`: the listed products the request asks for, with their count. */
  method GetProducts(db: Db, q: ProductQuery) returns (r: ListReply<(ProductId, Product)>)
    ensures r.status == 200 && r.count == |r.data|
    ensures forall e :: e in r.data <==>
      e.0 in db.products && db.products[e.0] == e.1 && e.1.status == Listed && Requested(q, e.1)
  {
    var found := GetAllProducts(db, BuildFilter(q));
    forall p: Product ensures MatchesFilter(BuildFilter(q), p) <==> Requested(q, p) {
      BuildFilterMeansRequested(q, p);
    }
    r := ListReply(200, |found|, found);
  }

  /** An empty query returns every listed product. */
  lemma EmptyQueryAdmitsAllListed(p: Product)
    ensures Requested(ProductQuery(None, None, None, None, None), p)
  {
  }

  /** `getProduct`: 404 with success false for a missing id, otherwise the viewed product. */
  function GetProduct(db: Db, id: ProductId): (r: (Db, Reply<Product>))
    ensures id !in db.products ==> r == (db, Err(404, "Product not found"))
    ensures id in db.products ==> r.1 == Ok(200, GetProductById(db, id).1.value) && r.0 == GetProductById(db, id).0
  {
    var (after, found) := GetProductById(db, id);
    match found
    case None => (after, Err(404, "Product not found"))
    case Some(p) => (after, Ok(200, p))
  }
}
