/** The order routes: the statistics aggregation, the paginated list with its search,
    status filter and client-chosen sort, create (which prices the order from the
    product catalogue), lookup by id, the `$set` patch and delete. */
module Orders {
  import opened Common
  import opened Query
  import opened ProductModel
  import opened OrderModel
  import Products

  const StatisticsFailure := "Error fetching order statistics"
  const ListFailure := "Error fetching orders"
  const CreateFailure := "Error creating order"
  const FetchFailure := "Error fetching order"
  const UpdateFailure := "Error updating order"
  const DeleteFailure := "Error deleting order"
  const InvalidId := "Invalid order ID"
  const OrderNotFound := "Order not found"
  const ProductNotFound := "Product not found"

  /** The key an order is found and kept unique by: the ObjectId its id denotes. */
  function OrderId(o: Order): Id { CanonicalId(o.id) }

  // ---------------------------------------------------------------------------
  // GET /statistics
  // ---------------------------------------------------------------------------

  datatype OrderStats = OrderStats(totalOrders: nat, completedOrders: nat, totalRevenue: int)

  predicate IsCompleted(o: Order) { o.status == "completed" }

  /** The `$group` stage: one count, a conditional count and a sum, folded over the
      orders. */
  function StatsTally(s: seq<Order>): (r: OrderStats)
    ensures r.totalOrders == |s|
    ensures r.completedOrders <= r.totalOrders
  {
    if s == [] then OrderStats(0, 0, 0)
    else
      var t := StatsTally(s[1..]);
      OrderStats(
        t.totalOrders + 1,
        t.completedOrders + (if IsCompleted(s[0]) then 1 else 0),
        t.totalRevenue + s[0].totalPrice)
  }

  /** The handler: the single group result, or all zeros when there are no orders
      and the pipeline yields no group. */
  function OrderStatistics(s: seq<Order>): (r: OrderStats)
    ensures s == [] ==> r == OrderStats(0, 0, 0)
    ensures r.totalOrders == |s| && r.completedOrders <= r.totalOrders
  {
    if |s| == 0 then OrderStats(0, 0, 0) else StatsTally(s)
  }

  /** completedOrders counts the completed orders and totalRevenue sums totalPrice. */
  lemma {:induction false} StatisticsCounts(s: seq<Order>)
    ensures OrderStatistics(s).completedOrders == CountIf(s, IsCompleted)
    ensures OrderStatistics(s).totalRevenue == SumOf(s, (o: Order) => o.totalPrice)
  {
    if s != [] {
      StatisticsCounts(s[1..]);
      assert OrderStatistics(s[1..]) == StatsTally(s[1..]);
    }
  }

  /** Revenue over orders that passed the schema is never negative. */
  lemma {:induction false} RevenueNonNegative(s: seq<Order>)
    requires forall i :: 0 <= i < |s| ==> ValidOrder(s[i])
    ensures OrderStatistics(s).totalRevenue >= 0
  {
    if s != [] {
      RevenueNonNegative(s[1..]);
      assert OrderStatistics(s[1..]) == StatsTally(s[1..]);
    }
  }

  /** Storing one more order adds one to the count and its total price to the revenue. */
  lemma StatisticsAfterCreate(s: seq<Order>, o: Order)
    ensures OrderStatistics(s + [o]).totalOrders == OrderStatistics(s).totalOrders + 1
    ensures OrderStatistics(s + [o]).totalRevenue == OrderStatistics(s).totalRevenue + o.totalPrice
    ensures OrderStatistics(s + [o]).completedOrders
            == OrderStatistics(s).completedOrders + (if IsCompleted(o) then 1 else 0)
  {
    StatisticsCounts(s);
    StatisticsCounts(s + [o]);
    StatisticsCounts([o]);
    SumOfAppend(s, [o], (o: Order) => o.totalPrice);
    CountIfAppend(s, [o], IsCompleted);
  }

  // ---------------------------------------------------------------------------
  // GET /
  // ---------------------------------------------------------------------------

  /** The list query. The `'product.name'` clause of the search names a field of the
      unpopulated reference, which holds an id and no name, so only the status clause
      can match; a non-empty status filter is an equality. */
  function OrderFilter(search: Option<string>, status: Option<string>): Order -> bool {
    (o: Order) =>
      && (!Truthy(search) || MatchesIgnoreCase(o.status, search.value))
      && (!Truthy(status) || o.status == status.value)
  }

  /** Without a search or a status every order is listed. */
  lemma EmptyOrderFilterKeepsAll(s: seq<Order>)
    ensures Filter(s, OrderFilter(None, None)) == s
  {
    FilterKeepsAll(s, OrderFilter(None, None));
  }

  /** A search for an order's own status, in any letter case, together with that
      status as the filter, selects the order. */
  lemma OrderFilterFindsOwnStatus(o: Order)
    ensures OrderFilter(Some(o.status), Some(o.status))(o)
  {
    MatchesSelf(o.status);
  }

  /** The value of `sortField` in an order document. Ids (`_id`, `product`) are
      ordered by their hexadecimal text; a field the schema does not have is absent
      in every document. */
  function OrderSortKey(field: string): Order -> Key {
    (o: Order) =>
      if field == "createdAt" then Num(o.createdAt)
      else if field == "updatedAt" then Num(o.updatedAt)
      else if field == "quantity" then Num(o.quantity)
      else if field == "totalPrice" then Num(o.totalPrice)
      else if field == "status" then Text(o.status)
      else if field == "product" then Text(o.product)
      else if field == "_id" then Text(o.id)
      else Missing
  }

  /** The matching orders sorted on `sortField` (default createdAt), descending
      exactly when `sortOrder` is 'desc' (the default). */
  function SortedMatches(
    s: seq<Order>, search: Option<string>, status: Option<string>,
    sortField: Option<string>, sortOrder: Option<string>): seq<Order>
  {
    SortBy(Filter(s, OrderFilter(search, status)),
           OrderSortKey(sortField.GetOr("createdAt")),
           SortDirection(sortOrder) == -1)
  }

  function ListOrders(
    s: seq<Order>, page: Option<int>, pageSize: Option<int>, search: Option<string>,
    status: Option<string>, sortField: Option<string>, sortOrder: Option<string>)
    : (r: Response<ListPage<Order>>)
    ensures r.ServerError? <==> SkipFor(page.GetOr(1), pageSize.GetOr(10)) < 0
    ensures r.Ok? || r == ServerError(ListFailure)
    ensures r.Ok? ==> && r.body.page == page.GetOr(1) && r.body.pageSize == pageSize.GetOr(10)
                      && r.body.total == CountIf(s, OrderFilter(search, status))
                      && (pageSize.GetOr(10) != 0 ==> |r.body.data| <= Abs(pageSize.GetOr(10)))
  {
    var p := page.GetOr(1);
    var n := pageSize.GetOr(10);
    var skip := SkipFor(p, n);
    if skip < 0 then ServerError(ListFailure)
    else
      var m := SortedMatches(s, search, status, sortField, sortOrder);
      CountIfIsFilterLength(s, OrderFilter(search, status));
      Ok(ListPage(Paginate(m, skip, n), |m|, p, n))
  }

  /** Every listed order is a stored order that satisfies the filter; with a status
      filter, every listed order has that status. */
  lemma ListOrdersMembers(
    s: seq<Order>, page: Option<int>, pageSize: Option<int>, search: Option<string>,
    status: Option<string>, sortField: Option<string>, sortOrder: Option<string>)
    requires ListOrders(s, page, pageSize, search, status, sortField, sortOrder).Ok?
    ensures var d := ListOrders(s, page, pageSize, search, status, sortField, sortOrder).body.data;
            && (forall i :: 0 <= i < |d| ==> d[i] in s && OrderFilter(search, status)(d[i]))
            && (Truthy(status) ==> forall i :: 0 <= i < |d| ==> d[i].status == status.value)
  {
    SortedPage(s, OrderFilter(search, status), OrderSortKey(sortField.GetOr("createdAt")),
               SortDirection(sortOrder) == -1, SkipFor(page.GetOr(1), pageSize.GetOr(10)), pageSize.GetOr(10));
  }

  /** The page is the skip/limit window at (page−1)·pageSize over the sorted
      matches. */
  lemma ListOrdersWindow(
    s: seq<Order>, page: Option<int>, pageSize: Option<int>, search: Option<string>,
    status: Option<string>, sortField: Option<string>, sortOrder: Option<string>)
    requires ListOrders(s, page, pageSize, search, status, sortField, sortOrder).Ok?
    ensures ListOrders(s, page, pageSize, search, status, sortField, sortOrder).body.data
         == Paginate(SortedMatches(s, search, status, sortField, sortOrder),
                     SkipFor(page.GetOr(1), pageSize.GetOr(10)), pageSize.GetOr(10))
    ensures ListOrders(s, page, pageSize, search, status, sortField, sortOrder).body.total
         == |SortedMatches(s, search, status, sortField, sortOrder)|
  {
  }

  /** The page is sorted on the chosen field, descending exactly when sortOrder is 'desc'. */
  lemma ListOrdersSorted(
    s: seq<Order>, page: Option<int>, pageSize: Option<int>, search: Option<string>,
    status: Option<string>, sortField: Option<string>, sortOrder: Option<string>)
    requires ListOrders(s, page, pageSize, search, status, sortField, sortOrder).Ok?
    ensures SortedBy(ListOrders(s, page, pageSize, search, status, sortField, sortOrder).body.data,
                     OrderSortKey(sortField.GetOr("createdAt")), sortOrder.GetOr("desc") == "desc")
  {
    SortedPage(s, OrderFilter(search, status), OrderSortKey(sortField.GetOr("createdAt")),
               SortDirection(sortOrder) == -1, SkipFor(page.GetOr(1), pageSize.GetOr(10)), pageSize.GetOr(10));
  }

  // ---------------------------------------------------------------------------
  // GET /:id
  // ---------------------------------------------------------------------------

  /** A malformed id is refused with 400 before any lookup; a well-formed id that no
      order has is 404. The hexadecimal digits may be written in either case. */
  function GetOrder(s: seq<Order>, id: Id): (r: Response<Order>)
    ensures !IsObjectId(id) <==> r == BadRequest(InvalidId)
    ensures r.Ok? ==> r.body in s && CanonicalId(r.body.id) == CanonicalId(id)
    ensures r == NotFound(OrderNotFound) <==>
              IsObjectId(id) && forall i :: 0 <= i < |s| ==> CanonicalId(s[i].id) != CanonicalId(id)
    ensures r.Ok? || r.BadRequest? || r.NotFound?
  {
    if !IsObjectId(id) then BadRequest(InvalidId)
    else
      match IndexOf(s, OrderId, CanonicalId(id))
      case None => NotFound(OrderNotFound)
      case Some(k) => Ok(s[k])
  }

  /** Two id texts that denote the same ObjectId get the same answer. */
  lemma GetOrderIgnoresCase(s: seq<Order>, a: Id, b: Id)
    requires CanonicalId(a) == CanonicalId(b)
    ensures GetOrder(s, a) == GetOrder(s, b)
  {
    SameIdSameShape(a, b);
  }

  // ---------------------------------------------------------------------------
  // PATCH /:id
  // ---------------------------------------------------------------------------

  /** The schema fields a PATCH body may set; None is a field left out. */
  datatype OrderPatch = OrderPatch(
    product: Option<Id>,
    quantity: Option<int>,
    totalPrice: Option<int>,
    status: Option<string>)

  /** `$set` of the body: each supplied field replaces the stored one (a product
      reference cast to its ObjectId), `updatedAt` becomes `now`, and nothing is
      validated or recomputed. */
  function ApplyPatch(o: Order, patch: OrderPatch, now: int): (r: Order)
    ensures r.id == o.id && r.createdAt == o.createdAt && r.updatedAt == now
    ensures r.product == (if patch.product.Some? then CanonicalId(patch.product.value) else o.product)
    ensures r.quantity == patch.quantity.GetOr(o.quantity)
    ensures r.totalPrice == patch.totalPrice.GetOr(o.totalPrice)
    ensures r.status == patch.status.GetOr(o.status)
  {
    o.(product := if patch.product.Some? then CanonicalId(patch.product.value) else o.product,
       quantity := patch.quantity.GetOr(o.quantity),
       totalPrice := patch.totalPrice.GetOr(o.totalPrice),
       status := patch.status.GetOr(o.status),
       updatedAt := now)
  }

  /** Changing the quantity alone leaves the total price as it was, so the total no
      longer equals unit price times quantity. */
  lemma PatchKeepsTotalPrice(o: Order, unitPrice: int, q: int, now: int)
    requires o.totalPrice == unitPrice * o.quantity && unitPrice > 0 && q != o.quantity
    ensures ApplyPatch(o, OrderPatch(None, Some(q), None, None), now).totalPrice == o.totalPrice
    ensures ApplyPatch(o, OrderPatch(None, Some(q), None, None), now).totalPrice != unitPrice * q
  {
    assert unitPrice * q - unitPrice * o.quantity == unitPrice * (q - o.quantity);
  }

  /** No validator runs on the patch: a status outside the enumeration, or a zero
      quantity, is stored. */
  lemma PatchSkipsValidators(o: Order, now: int)
    ensures !ValidOrder(ApplyPatch(o, OrderPatch(None, None, None, Some("shipped")), now))
    ensures !ValidOrder(ApplyPatch(o, OrderPatch(None, Some(0), None, None), now))
  {
    assert "shipped" != "pending" && "shipped" != "processing"
        && "shipped" != "completed" && "shipped" != "cancelled";
  }

  /** An empty patch only refreshes `updatedAt`. */
  lemma EmptyPatchOnlyTouches(o: Order, now: int)
    ensures ApplyPatch(o, OrderPatch(None, None, None, None), now) == o.(updatedAt := now)
  {
  }

  // ---------------------------------------------------------------------------
  // The stored orders
  // ---------------------------------------------------------------------------

  /** The unit price times the quantity, when the quantity was given. */
  function PriceFor(product: Product, quantity: Option<int>): Option<int> {
    if quantity.Some? then Some(product.price * quantity.value) else None
  }

  /** `status || 'pending'`: an empty status is replaced too. */
  function StatusOrDefault(status: Option<string>): Option<string> {
    if Truthy(status) then status else None
  }

  class OrderStore {
    var orders: seq<Order>

    ghost predicate Valid()
      reads this
    {
      UniqueIds(orders, OrderId)
    }

    constructor()
      ensures Valid() && orders == []
    {
      orders := [];
    }

    /** POST /. The product is looked up in `catalog` first: a missing productId
        matches nothing (404), one that does not cast is 400, one no product has is
        404. The order references the product by the ObjectId the productId
        denotes, gets totalPrice = price × quantity and status `status ||
        'pending'`; if the schema refuses it, 400. Otherwise it is stored, 201. */
    method Create(
      catalog: seq<Product>, productId: Option<Id>, quantity: Option<int>, status: Option<string>,
      newId: Id, now: int)
      returns (r: Response<Order>)
      requires Valid() && IndexOf(orders, OrderId, CanonicalId(newId)).None?
      modifies this
      ensures Valid()
      ensures !r.Created? ==> orders == old(orders)
      ensures productId.None? ==> r == NotFound(ProductNotFound)
      ensures productId.Some? && !IsObjectId(productId.value) ==> r == BadRequest(CreateFailure)
      ensures productId.Some? && IsObjectId(productId.value) && IndexOf(catalog, Products.ProductId, CanonicalId(productId.value)).None? ==>
                r == NotFound(ProductNotFound)
      ensures productId.Some? && IsObjectId(productId.value) && IndexOf(catalog, Products.ProductId, CanonicalId(productId.value)).Some? ==>
                var product := catalog[IndexOf(catalog, Products.ProductId, CanonicalId(productId.value)).value];
                var made := NewOrder(newId, CanonicalId(productId.value), quantity, PriceFor(product, quantity),
                                     StatusOrDefault(status), now);
                && (made.None? ==> r == BadRequest(CreateFailure))
                && (made.Some? ==> r == Created(made.value) && orders == old(orders) + [made.value])
    {
      if productId.None? {
        r := NotFound(ProductNotFound);
        return;
      }
      if !IsObjectId(productId.value) {
        r := BadRequest(CreateFailure);
        return;
      }
      var found := IndexOf(catalog, Products.ProductId, CanonicalId(productId.value));
      if found.None? {
        r := NotFound(ProductNotFound);
        return;
      }
      var product := catalog[found.value];
      CanonicalIdKeepsObjectId(productId.value);
      var made := NewOrder(newId, CanonicalId(productId.value), quantity, PriceFor(product, quantity),
                           StatusOrDefault(status), now);
      if made.None? {
        r := BadRequest(CreateFailure);
      } else {
        AppendFresh(orders, OrderId, made.value);
        orders := orders + [made.value];
        r := Created(made.value);
      }
    }

    /** PATCH /:id. An id, or a product reference in the body, that does not cast is
        400; a missing id is 404; otherwise the order after `ApplyPatch` replaces the
        stored one and is returned. */
    method Patch(id: Id, patch: OrderPatch, now: int) returns (r: Response<Order>)
      requires Valid()
      modifies this
      ensures Valid()
      ensures !IsObjectId(id) || (patch.product.Some? && !IsObjectId(patch.product.value)) ==>
                r == BadRequest(UpdateFailure) && orders == old(orders)
      ensures IsObjectId(id) && (patch.product.Some? ==> IsObjectId(patch.product.value)) ==>
                match IndexOf(old(orders), OrderId, CanonicalId(id))
                case None => r == NotFound(OrderNotFound) && orders == old(orders)
                case Some(k) => && r == Ok(ApplyPatch(old(orders)[k], patch, now))
                                && orders == old(orders)[k := r.body]
    {
      if !IsObjectId(id) || (patch.product.Some? && !IsObjectId(patch.product.value)) {
        r := BadRequest(UpdateFailure);
        return;
      }
      var found := IndexOf(orders, OrderId, CanonicalId(id));
      if found.None? {
        r := NotFound(OrderNotFound);
      } else {
        var k := found.value;
        var updated := ApplyPatch(orders[k], patch, now);
        ReplaceKeepsUnique(orders, OrderId, k, updated);
        orders := orders[k := updated];
        r := Ok(updated);
      }
    }

    /** DELETE /:id: an id that does not cast is 400, a missing id 404; otherwise the
        order is removed and the answer is 204. */
    method Delete(id: Id) returns (r: Response<Order>)
      requires Valid()
      modifies this
      ensures Valid()
      ensures !IsObjectId(id) ==> r == BadRequest(DeleteFailure) && orders == old(orders)
      ensures IsObjectId(id) && IndexOf(old(orders), OrderId, CanonicalId(id)).None? ==>
                r == NotFound(OrderNotFound) && orders == old(orders)
      ensures IsObjectId(id) && IndexOf(old(orders), OrderId, CanonicalId(id)).Some? ==>
                r == NoContent && orders == RemoveAt(old(orders), IndexOf(old(orders), OrderId, CanonicalId(id)).value)
    {
      if !IsObjectId(id) {
        r := BadRequest(DeleteFailure);
        return;
      }
      var found := IndexOf(orders, OrderId, CanonicalId(id));
      if found.None? {
        r := NotFound(OrderNotFound);
      } else {
        RemoveUnique(orders, OrderId, found.value);
        orders := RemoveAt(orders, found.value);
        r := NoContent;
      }
    }
  }

  /** A created order carries the catalogue price times the quantity, and the given
      status or 'pending'. */
  lemma CreatedOrderPriced(product: Product, productId: Id, q: int, status: Option<string>, newId: Id, now: int)
    requires ValidProduct(product) && IsObjectId(productId) && q >= 1
    requires !Truthy(status) || status.value in OrderStatuses
    ensures var made := NewOrder(newId, productId, Some(q), PriceFor(product, Some(q)), StatusOrDefault(status), now);
            && made.Some?
            && made.value.totalPrice == product.price * q
            && made.value.status == (if Truthy(status) then status.value else "pending")
  {
    assert product.price * q >= 0;
  }

  /** An order whose quantity is missing or below one, or whose status is not in the
      enumeration, is refused. */
  lemma CreateRefusesBadOrders(product: Product, productId: Id, quantity: Option<int>, status: Option<string>, newId: Id, now: int)
    requires quantity.None? || quantity.value < 1 || (Truthy(status) && status.value !in OrderStatuses)
    ensures NewOrder(newId, productId, quantity, PriceFor(product, quantity), StatusOrDefault(status), now).None?
  {
  }

  /** After a delete the order is no longer found; after a patch the lookup returns
      the patched order. */
  lemma DeletedOrderIsGone(s: seq<Order>, k: nat)
    requires UniqueIds(s, OrderId) && k < |s| && IsObjectId(s[k].id)
    ensures GetOrder(RemoveAt(s, k), s[k].id) == NotFound(OrderNotFound)
  {
    RemoveUnique(s, OrderId, k);
  }

  lemma PatchedOrderIsFound(s: seq<Order>, k: nat, patch: OrderPatch, now: int)
    requires UniqueIds(s, OrderId) && k < |s| && IsObjectId(s[k].id)
    ensures GetOrder(s[k := ApplyPatch(s[k], patch, now)], s[k].id) == Ok(ApplyPatch(s[k], patch, now))
  {
    var t := s[k := ApplyPatch(s[k], patch, now)];
    ReplaceKeepsUnique(s, OrderId, k, t[k]);
    var r := IndexOf(t, OrderId, OrderId(s[k]));
    assert r.Some?;
    assert r.value == k;
  }
}
