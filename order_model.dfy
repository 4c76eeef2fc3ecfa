/** The order schema: the required product reference, the quantity and total-price
    minimums, the status enumeration with its default, and the JSON transform. */
module OrderModel {
  import opened Common
  import opened JsonDoc

  /** A stored order. `product` is the bare id of a product; `totalPrice` is in
      integer cents. The status is a string because a `$set` update does not run
      the enum validator, so stored orders may hold other values. */
  datatype Order = Order(
    id: Id,
    product: Id,
    quantity: int,
    totalPrice: int,
    status: string,
    createdAt: int,
    updatedAt: int)

  const OrderStatuses: seq<string> := ["pending", "processing", "completed", "cancelled"]
  const DefaultOrderStatus := "pending"

  /** What the schema accepts of an order. */
  predicate ValidOrder(o: Order) {
    && IsObjectId(o.product)
    && o.quantity >= 1
    && o.totalPrice >= 0
    && o.status in OrderStatuses
  }

  /** `new Order({...})` then validation on save. A quantity or total price that is
      not a number (None) fails `required`; an absent status takes the default
      'pending'; both timestamps are `now`. None when validation fails. */
  function NewOrder(
    id: Id, product: Id, quantity: Option<int>, totalPrice: Option<int>, status: Option<string>, now: int)
    : (r: Option<Order>)
    ensures r.Some? <==> && IsObjectId(product)
                         && quantity.Some? && quantity.value >= 1
                         && totalPrice.Some? && totalPrice.value >= 0
                         && status.GetOr(DefaultOrderStatus) in OrderStatuses
    ensures r.Some? ==> ValidOrder(r.value)
    ensures r.Some? ==> && r.value.id == id && r.value.product == product
                        && r.value.quantity == quantity.value
                        && r.value.totalPrice == totalPrice.value
                        && r.value.status == status.GetOr(DefaultOrderStatus)
                        && r.value.createdAt == now && r.value.updatedAt == now
  {
    if quantity.None? || totalPrice.None? then None
    else
      var o := Order(id, product, quantity.value, totalPrice.value, status.GetOr(DefaultOrderStatus), now, now);
      if ValidOrder(o) then Some(o) else None
  }

  /** Leaving the status out stores 'pending'. */
  lemma StatusDefaultsToPending(id: Id, product: Id, quantity: int, totalPrice: int, now: int)
    requires IsObjectId(product) && quantity >= 1 && totalPrice >= 0
    ensures var r := NewOrder(id, product, Some(quantity), Some(totalPrice), None, now);
            r.Some? && r.value.status == "pending"
  {
  }

  /** The stored document as the driver hands it to `toJSON`. */
  function Document(o: Order, version: int): map<string, Value> {
    map[
      "_id" := Str(o.id), "__v" := Num(version),
      "product" := Str(o.product), "quantity" := Num(o.quantity),
      "totalPrice" := Num(o.totalPrice), "status" := Str(o.status),
      "createdAt" := Num(o.createdAt), "updatedAt" := Num(o.updatedAt)]
  }

  /** `res.json(order)`: `_id` renamed to `id`, `__v` dropped, the fields kept. */
  method ToJson(o: Order, version: int) returns (json: map<string, Value>)
    ensures "id" in json && json["id"] == Str(o.id)
    ensures "_id" !in json && "__v" !in json
    ensures "status" in json && json["status"] == Str(o.status)
    ensures "totalPrice" in json && json["totalPrice"] == Num(o.totalPrice)
    ensures json.Keys == {"id", "product", "quantity", "totalPrice", "status", "createdAt", "updatedAt"}
    ensures json == map["id" := Str(o.id), "product" := Str(o.product), "quantity" := Num(o.quantity),
                        "totalPrice" := Num(o.totalPrice), "status" := Str(o.status),
                        "createdAt" := Num(o.createdAt), "updatedAt" := Num(o.updatedAt)]
  {
    var doc := Document(o, version);
    assert doc.Keys == {"_id", "__v", "product", "quantity", "totalPrice", "status", "createdAt", "updatedAt"};
    var ret := new JsonObject(doc);
    ret.RenameId();
    json := ret.fields;
    assert json == Renamed(doc);
  }
}
