/** app/api/admin/products/route.ts: the admin product list (`GET`) and
    product creation (`POST`), both behind the ADMIN/SUPER_ADMIN role gate.
    The handlers here receive the request the gate has let through. */
module ProductsRoute {
  import opened Common
  import opened Auth
  import opened RoleGate
  import opened Slug
  import opened Pagination

  /** The roles both handlers are declared with. */
  const ProductRoles: seq<string> := [ADMIN, SUPER_ADMIN]

  // ---------------------------------------------------------------------------
  // GET

  /** The `where` of the list query: the category id to match, and the search
      term to look for in the name or the description. */
  datatype ProductWhere = ProductWhere(categoryId: Option<string>, search: Option<string>)

  /** The filters and the page of one list request. */
  datatype ListQuery = ListQuery(where: ProductWhere, paging: PageRequest)

  /** `{ ...(category && { categoryId: category }), ...(search && { OR: [...] }) }`:
      each condition only when its parameter is present and non-empty. */
  function ListWhere(query: map<string, string>): (w: ProductWhere)
    ensures w.categoryId.Some? <==> "category" in query && query["category"] != ""
    ensures w.categoryId.Some? ==> w.categoryId.value == query["category"]
    ensures w.search.Some? <==> "search" in query && query["search"] != ""
    ensures w.search.Some? ==> w.search.value == query["search"]
  {
    ProductWhere(Filled(query, "category"), Filled(query, "search"))
  }

  /** What `GET` asks the store for; the response reports
      `TotalPages(total, limit)` pages for the `total` the store counts. */
  function ListRequest(query: map<string, string>): ListQuery {
    ListQuery(ListWhere(query), PageRequestOf(query))
  }

  /** A list request without parameters filters nothing and asks for the
      first ten products. */
  lemma PlainListRequest()
    ensures ListRequest(map[]) == ListQuery(ProductWhere(None, None), PageRequest(Some(1), Some(10), Some(0)))
  {
    FirstPageByDefault(map[]);
  }

  // ---------------------------------------------------------------------------
  // POST

  /** The body fields copied into the new row as they are. */
  const PassedThrough: seq<string> :=
    ["description", "originalPrice", "sku", "isActive", "isFeatured", "inStock", "stockQuantity", "minOrderQty"]

  /** A stored product: the validated name, its slug, the price and category
      id as sent, the other body fields, and the creating user's id. */
  datatype Product = Product(
    id: string, name: string, slug: string, price: JsonValue, categoryId: JsonValue,
    details: map<string, JsonValue>, createdById: string)

  datatype PostOutcome = Created(product: Product) | Failed(status: int, error: string)

  const RequiredMessage := "Name, price, and category are required"

  /** The body fields that are copied. */
  function Details(body: map<string, JsonValue>): (d: map<string, JsonValue>)
    ensures forall k :: k in d <==> k in PassedThrough && k in body
    ensures forall k :: k in d ==> d[k] == body[k]
  {
    map k | k in body && k in PassedThrough :: body[k]
  }

  /** The outcome of `POST` for the gated request, the new row taking id
      `newId`. A JSON body that cannot be read, a name that is not a string
      (`toLowerCase` is then not a function) and a missing `request.user`
      (read through `user.id`) all throw, and the catch answers 500. */
  function CreateProduct(request: Request, newId: string): (r: PostOutcome)
    ensures request.body.None? ==> r == Failed(500, "Internal server error")
    ensures request.body.Some? && !(Truthy(Field(request.body.value, "name")) && Truthy(Field(request.body.value, "price"))
                                    && Truthy(Field(request.body.value, "categoryId")))
            ==> r == Failed(400, RequiredMessage)
    ensures r.Created? <==>
              && request.body.Some?
              && Truthy(Field(request.body.value, "name")) && Truthy(Field(request.body.value, "price"))
              && Truthy(Field(request.body.value, "categoryId"))
              && Field(request.body.value, "name").Str? && request.user.Some?
    ensures r.Created? ==>
              && r.product.id == newId
              && r.product.name == Field(request.body.value, "name").s
              && r.product.slug == Slugify(r.product.name)
              && r.product.price == Field(request.body.value, "price")
              && r.product.categoryId == Field(request.body.value, "categoryId")
              && r.product.details == Details(request.body.value)
              && r.product.createdById == request.user.value.id
  {
    match request.body
    case None => Failed(500, "Internal server error")
    case Some(b) =>
      var name := Field(b, "name");
      var price := Field(b, "price");
      var categoryId := Field(b, "categoryId");
      if !Truthy(name) || !Truthy(price) || !Truthy(categoryId) then Failed(400, RequiredMessage)
      else if !name.Str? then Failed(500, "Internal server error")
      else if request.user.None? then Failed(500, "Internal server error")
      else Created(Product(newId, name.s, Slugify(name.s), price, categoryId, Details(b), request.user.value.id))
  }

  /** A price of 0 is refused like a missing one, because the check is on
      truthiness. */
  lemma ZeroPriceRefused(request: Request, newId: string)
    requires request.body.Some? && Field(request.body.value, "price") == Num(0.0)
    ensures CreateProduct(request, newId) == Failed(400, RequiredMessage)
  {
  }

  /** A created product has a well-formed slug, made of the name's letters and
      digits, and records who created it. */
  lemma CreatedProductSlug(request: Request, newId: string)
    requires CreateProduct(request, newId).Created?
    ensures var p := CreateProduct(request, newId).product;
            && IsSlug(p.slug)
            && Filter(p.slug, NotHyphen) == Filter(Lower(p.name), IsAlnum)
            && p.createdById == request.user.value.id
  {
    var p := CreateProduct(request, newId).product;
    SlugifyIsSlug(p.name);
    SlugifyKeepsAlnums(p.name);
  }

  /** The product store. */
  class ProductTable {
    var rows: seq<Product>

    constructor ()
      ensures rows == []
    {
      rows := [];
    }

    /** `POST /api/admin/products`: a created product is appended to the
        store; any other outcome leaves the store as it was. */
    method Post(request: Request, newId: string) returns (r: PostOutcome)
      modifies this
      ensures r == CreateProduct(request, newId)
      ensures r.Created? ==> rows == old(rows) + [r.product]
      ensures r.Failed? ==> rows == old(rows)
    {
      r := CreateProduct(request, newId);
      if r.Created? {
        rows := rows + [r.product];
      }
    }
  }
}
