/** The product routes: the paginated list with its name/description search, lookup
    by id, create, update with validators, delete, and the ten-result search. The
    collection is a `ProductStore` whose `products` are in natural (insertion) order. */
module Products {
  import opened Common
  import opened Query
  import opened ProductModel

  const ListFailure := "Error fetching products"
  const FetchFailure := "Error fetching product"
  const CreateFailure := "Error creating product"
  const UpdateFailure := "Error updating product"
  const DeleteFailure := "Error deleting product"
  const SearchFailure := "Error searching products"
  const ProductNotFound := "Product not found"
  const IdRequired := "Product ID is required"
  const Deleted := "Product deleted successfully"

  /** The `/search` handler's cap on results. */
  const SearchLimit := 10

  /** The key a product is found and kept unique by: the ObjectId its id denotes. */
  function ProductId(p: Product): Id { CanonicalId(p.id) }

  /** The sort key of the list, `createdAt`. */
  function CreatedKey(p: Product): Key { Num(p.createdAt) }

  /** `$or` of a case-insensitive match on name and on description. */
  predicate NameOrDescription(p: Product, q: string) {
    MatchesIgnoreCase(p.name, q) || MatchesIgnoreCase(p.description, q)
  }

  /** The list query: no constraint for an empty search, otherwise the `$or`. */
  function ListFilter(search: Option<string>): Product -> bool {
    (p: Product) => !Truthy(search) || NameOrDescription(p, search.value)
  }

  /** The `/search` query, which is built whatever `q` is. */
  function SearchFilter(q: string): Product -> bool {
    (p: Product) => NameOrDescription(p, q)
  }

  /** The matching products, newest first. */
  function NewestMatches(s: seq<Product>, search: Option<string>): seq<Product> {
    SortBy(Filter(s, ListFilter(search)), CreatedKey, true)
  }

  /** GET /: the matching products, newest first, after skipping (page−1)·pageSize
      and keeping at most pageSize; `total` counts every match. A negative skip is
      refused by the driver, which the handler answers with 500. */
  function ListProducts(s: seq<Product>, page: Option<int>, pageSize: Option<int>, search: Option<string>)
    : (r: Response<ListPage<Product>>)
    ensures r.ServerError? <==> SkipFor(page.GetOr(1), pageSize.GetOr(10)) < 0
    ensures r.ServerError? ==> r.message == ListFailure
    ensures r.Ok? || r.ServerError?
    ensures r.Ok? ==> && r.body.page == page.GetOr(1) && r.body.pageSize == pageSize.GetOr(10)
                      && r.body.total == CountIf(s, ListFilter(search))
                      && (pageSize.GetOr(10) != 0 ==> |r.body.data| <= Abs(pageSize.GetOr(10)))
                      && (forall i :: 0 <= i < |r.body.data| ==> r.body.data[i] in s)
                      && (forall i :: 0 <= i < |r.body.data| ==> ListFilter(search)(r.body.data[i]))
                      && SortedBy(r.body.data, CreatedKey, true)
  {
    var p := page.GetOr(1);
    var n := pageSize.GetOr(10);
    var skip := SkipFor(p, n);
    if skip < 0 then ServerError(ListFailure)
    else
      var m := NewestMatches(s, search);
      var data := Paginate(m, skip, n);
      CountIfIsFilterLength(s, ListFilter(search));
      SortedPage(s, ListFilter(search), CreatedKey, true, skip, n);
      Ok(ListPage(data, |m|, p, n))
  }

  /** The page is the skip/limit window at (page−1)·pageSize over the matches
      sorted newest first, and `total` is the number of those matches. */
  lemma ListProductsWindow(s: seq<Product>, page: Option<int>, pageSize: Option<int>, search: Option<string>)
    requires ListProducts(s, page, pageSize, search).Ok?
    ensures ListProducts(s, page, pageSize, search).body.data
         == Paginate(NewestMatches(s, search), SkipFor(page.GetOr(1), pageSize.GetOr(10)), pageSize.GetOr(10))
    ensures ListProducts(s, page, pageSize, search).body.total == |NewestMatches(s, search)|
  {
  }

  /** The products on page k of the list, as a client paging with one page size
      receives them. */
  function ListedPage(s: seq<Product>, pageSize: nat, search: Option<string>): nat -> seq<Product> {
    (k: nat) =>
      var r := ListProducts(s, Some(k), Some(pageSize), search);
      if r.Ok? then r.body.data else []
  }

  /** Page k ≥ 1 of a positive page size is answered, with the window at
      (k−1)·pageSize. */
  lemma ListedPageIsWindow(s: seq<Product>, pageSize: nat, search: Option<string>, k: nat)
    requires pageSize > 0 && k > 0
    ensures ListProducts(s, Some(k), Some(pageSize), search).Ok?
    ensures ListedPage(s, pageSize, search)(k) == Paginate(NewestMatches(s, search), PageStart(k, pageSize), pageSize)
  {
    var skip: nat := (k - 1) * pageSize;
    ListProductsWindow(s, Some(k), Some(pageSize), search);
  }

  /** Every page from 1 to m is the window at (k−1)·pageSize. */
  lemma ListedPagesAreWindows(s: seq<Product>, pageSize: nat, search: Option<string>, m: nat)
    requires pageSize > 0
    ensures forall k: nat :: 0 < k <= m ==>
              ListedPage(s, pageSize, search)(k) == Paginate(NewestMatches(s, search), PageStart(k, pageSize), pageSize)
  {
    forall k: nat | 0 < k <= m
      ensures ListedPage(s, pageSize, search)(k) == Paginate(NewestMatches(s, search), PageStart(k, pageSize), pageSize)
    {
      ListedPageIsWindow(s, pageSize, search, k);
    }
  }

  /** Paging through the list with a positive page size visits the matches newest
      first, nothing repeated and nothing skipped: pages 1 to m of the handler,
      one after the other, are the first m·pageSize matches. */
  lemma ListPagesWalkTheMatches(s: seq<Product>, pageSize: nat, search: Option<string>, m: nat)
    requires pageSize > 0
    ensures var sorted := NewestMatches(s, search);
            Concat(ListedPage(s, pageSize, search), m) == sorted[..Min(PageEnd(m, pageSize), |sorted|)]
  {
    ListedPagesAreWindows(s, pageSize, search, m);
    WalkWindows(NewestMatches(s, search), pageSize, ListedPage(s, pageSize, search), m);
  }

  /** GET /:id. An id that is not an ObjectId makes the driver throw, answered with
      500; otherwise the product whose id denotes the same ObjectId is found, in
      whatever letter case its hexadecimal digits were written. */
  function GetProduct(s: seq<Product>, id: Id): (r: Response<Product>)
    ensures r.ServerError? <==> !IsObjectId(id)
    ensures r.Ok? ==> r.body in s && CanonicalId(r.body.id) == CanonicalId(id)
    ensures r.NotFound? <==> IsObjectId(id) && forall i :: 0 <= i < |s| ==> CanonicalId(s[i].id) != CanonicalId(id)
    ensures r.Ok? || r.NotFound? || r.ServerError?
    ensures r.NotFound? ==> r.message == ProductNotFound
    ensures r.ServerError? ==> r.message == FetchFailure
  {
    if !IsObjectId(id) then ServerError(FetchFailure)
    else
      match IndexOf(s, ProductId, CanonicalId(id))
      case None => NotFound(ProductNotFound)
      case Some(k) => Ok(s[k])
  }

  /** Two id texts that denote the same ObjectId get the same answer: a stored id
      requested in upper-case hexadecimal is found. */
  lemma GetProductIgnoresCase(s: seq<Product>, a: Id, b: Id)
    requires CanonicalId(a) == CanonicalId(b)
    ensures GetProduct(s, a) == GetProduct(s, b)
  {
    SameIdSameShape(a, b);
  }

  /** GET /search: the first ten products, in natural order, whose name or description
      matches `q`. */
  function SearchProducts(s: seq<Product>, q: string): (r: Response<seq<Product>>)
    ensures r.Ok?
    ensures |r.body| <= SearchLimit
    ensures forall i :: 0 <= i < |r.body| ==> NameOrDescription(r.body[i], q) && r.body[i] in s
  {
    Ok(Paginate(Filter(s, SearchFilter(q)), 0, SearchLimit))
  }

  /** The search result is exactly the first min(10, matches) matches. */
  lemma SearchIsFirstMatches(s: seq<Product>, q: string)
    ensures var m := Filter(s, SearchFilter(q));
            SearchProducts(s, q).body == m[..Min(SearchLimit, |m|)]
    ensures |SearchProducts(s, q).body| == Min(SearchLimit, CountIf(s, SearchFilter(q)))
  {
    CountIfIsFilterLength(s, SearchFilter(q));
  }

  /** An empty `q` matches every product, so the search is the first ten products. */
  lemma EmptySearchIsFirstTen(s: seq<Product>)
    ensures SearchProducts(s, "").body == s[..Min(SearchLimit, |s|)]
  {
    forall i | 0 <= i < |s| ensures SearchFilter("")(s[i]) {
      EmptyPatternMatches(s[i].name);
    }
    FilterKeepsAll(s, SearchFilter(""));
  }

  /** The stored products. */
  class ProductStore {
    var products: seq<Product>

    /** Ids are unique and every stored product passed the schema validators. */
    ghost predicate Valid()
      reads this
    {
      && UniqueIds(products, ProductId)
      && forall i :: 0 <= i < |products| ==> ValidProduct(products[i])
    }

    constructor()
      ensures Valid() && products == []
    {
      products := [];
    }

    /** POST /: validate and insert under the fresh id the driver generated, 201; or
        400 with nothing stored. */
    method Create(input: ProductInput, newId: Id, now: int) returns (r: Response<Product>)
      requires Valid() && IndexOf(products, ProductId, CanonicalId(newId)).None?
      modifies this
      ensures Valid()
      ensures !AcceptsNew(input) ==> r == BadRequest(CreateFailure) && products == old(products)
      ensures AcceptsNew(input) ==> && r == Created(NewProduct(input, newId, now).value)
                                    && products == old(products) + [r.body]
    {
      var created := NewProduct(input, newId, now);
      if created.None? {
        r := BadRequest(CreateFailure);
      } else {
        var p := created.value;
        AppendFresh(products, ProductId, p);
        products := products + [p];
        r := Created(p);
      }
    }

    /** PUT /:id: `findByIdAndUpdate` with `runValidators` and `new: true`. An id that
        does not cast, or a body the update validators refuse, is 400; a missing id
        is 404; otherwise the supplied fields replace the stored ones, `updatedAt`
        becomes `now`, and the updated product is returned. */
    method Update(id: Id, patch: ProductInput, now: int) returns (r: Response<Product>)
      requires Valid()
      modifies this
      ensures Valid()
      ensures !IsObjectId(id) || !AcceptsUpdate(patch) ==> r == BadRequest(UpdateFailure) && products == old(products)
      ensures IsObjectId(id) && AcceptsUpdate(patch) && IndexOf(old(products), ProductId, CanonicalId(id)).None? ==>
                r == NotFound(ProductNotFound) && products == old(products)
      ensures IsObjectId(id) && AcceptsUpdate(patch) && IndexOf(old(products), ProductId, CanonicalId(id)).Some? ==>
                var k := IndexOf(old(products), ProductId, CanonicalId(id)).value;
                && r == Ok(ApplyUpdate(old(products)[k], patch, now))
                && products == old(products)[k := r.body]
    {
      if !IsObjectId(id) || !AcceptsUpdate(patch) {
        r := BadRequest(UpdateFailure);
        return;
      }
      var found := IndexOf(products, ProductId, CanonicalId(id));
      if found.None? {
        r := NotFound(ProductNotFound);
      } else {
        var k := found.value;
        var updated := ApplyUpdate(products[k], patch, now);
        UpdateValidIffAccepted(products[k], patch, now);
        ReplaceKeepsUnique(products, ProductId, k, updated);
        products := products[k := updated];
        r := Ok(updated);
      }
    }

    /** DELETE /:id: an empty id is 400, an id that does not cast is 500, a missing id
        is 404; otherwise the product is removed. Orders are a separate collection
        and are not touched. */
    method Delete(id: Id) returns (r: Response<string>)
      requires Valid()
      modifies this
      ensures Valid()
      ensures id == "" ==> r == BadRequest(IdRequired) && products == old(products)
      ensures id != "" && !IsObjectId(id) ==> r == ServerError(DeleteFailure) && products == old(products)
      ensures IsObjectId(id) && IndexOf(old(products), ProductId, CanonicalId(id)).None? ==>
                r == NotFound(ProductNotFound) && products == old(products)
      ensures IsObjectId(id) && IndexOf(old(products), ProductId, CanonicalId(id)).Some? ==>
                && r == Ok(Deleted)
                && products == RemoveAt(old(products), IndexOf(old(products), ProductId, CanonicalId(id)).value)
    {
      if id == "" {
        r := BadRequest(IdRequired);
        return;
      }
      if !IsObjectId(id) {
        r := ServerError(DeleteFailure);
        return;
      }
      var found := IndexOf(products, ProductId, CanonicalId(id));
      if found.None? {
        r := NotFound(ProductNotFound);
      } else {
        RemoveUnique(products, ProductId, found.value);
        products := RemoveAt(products, found.value);
        r := Ok(Deleted);
      }
    }
  }

  /** A created product is found by its id. */
  lemma CreatedIsFound(s: seq<Product>, p: Product)
    requires UniqueIds(s, ProductId) && IndexOf(s, ProductId, ProductId(p)).None? && IsObjectId(p.id)
    ensures GetProduct(s + [p], p.id) == Ok(p)
  {
    AppendFresh(s, ProductId, p);
  }

  /** After a delete the product is no longer found. */
  lemma DeletedIsGone(s: seq<Product>, k: nat)
    requires UniqueIds(s, ProductId) && k < |s| && IsObjectId(s[k].id)
    ensures GetProduct(RemoveAt(s, k), s[k].id) == NotFound(ProductNotFound)
  {
    RemoveUnique(s, ProductId, k);
  }

  /** After an update, a lookup returns the updated product. */
  lemma UpdatedIsFound(s: seq<Product>, k: nat, patch: ProductInput, now: int)
    requires UniqueIds(s, ProductId) && k < |s| && IsObjectId(s[k].id)
    ensures GetProduct(s[k := ApplyUpdate(s[k], patch, now)], s[k].id) == Ok(ApplyUpdate(s[k], patch, now))
  {
    var t := s[k := ApplyUpdate(s[k], patch, now)];
    ReplaceKeepsUnique(s, ProductId, k, t[k]);
    var r := IndexOf(t, ProductId, ProductId(s[k]));
    assert r.Some?;
    assert r.value == k;
  }
}
