/** The product schema: required fields, the trimmed name, the numeric minimums, the
    category enumeration, the stock default, the JSON transform and the pre-save
    hook that refreshes `updatedAt`. */
module ProductModel {
  import opened Common
  import opened JsonDoc

  /** A stored product. Prices are integer cents; times are integer timestamps. */
  datatype Product = Product(
    id: Id,
    name: string,
    description: string,
    price: int,
    category: string,
    imageUrl: Option<string>,
    stock: int,
    createdAt: int,
    updatedAt: int)

  const Categories: seq<string> := ["Fish", "Shellfish", "Other"]
  const DefaultStock := 0

  /** What the schema accepts of a stored product. A required string may not be
      empty, and `name` is kept trimmed. */
  predicate ValidProduct(p: Product) {
    && p.name != "" && Trim(p.name) == p.name
    && p.description != ""
    && p.price >= 0
    && p.category in Categories
    && p.stock >= 0
  }

  /** A request body for create or update; None is a field left out. */
  datatype ProductInput = ProductInput(
    name: Option<string>,
    description: Option<string>,
    price: Option<int>,
    category: Option<string>,
    imageUrl: Option<string>,
    stock: Option<int>)

  /** Validation of a new document: every required field present and acceptable
      (the name after trimming); stock may be left to its default. */
  predicate AcceptsNew(input: ProductInput) {
    && input.name.Some? && Trim(input.name.value) != ""
    && input.description.Some? && input.description.value != ""
    && input.price.Some? && input.price.value >= 0
    && input.category.Some? && input.category.value in Categories
    && (input.stock.Some? ==> input.stock.value >= 0)
  }

  /** `new Product(req.body)` then validation on save: the name is trimmed, stock
      defaults to 0, the timestamps are `now` and the pre-save hook sets
      `updatedAt` to `now` again; None when validation fails. */
  function NewProduct(input: ProductInput, id: Id, now: int): (r: Option<Product>)
    ensures r.Some? <==> AcceptsNew(input)
    ensures r.Some? ==> ValidProduct(r.value)
    ensures r.Some? ==> && r.value.id == id
                        && r.value.name == Trim(input.name.value)
                        && r.value.description == input.description.value
                        && r.value.price == input.price.value
                        && r.value.category == input.category.value
                        && r.value.imageUrl == input.imageUrl
                        && r.value.stock == input.stock.GetOr(DefaultStock)
                        && r.value.createdAt == now && r.value.updatedAt == now
  {
    if AcceptsNew(input) then
      TrimIdempotent(input.name.value);
      Some(Product(
        id,
        Trim(input.name.value),
        input.description.value,
        input.price.value,
        input.category.value,
        input.imageUrl,
        input.stock.GetOr(DefaultStock),
        now,
        now))
    else None
  }

  /** Update validators check only the fields the update sets. */
  predicate AcceptsUpdate(patch: ProductInput) {
    && (patch.name.Some? ==> Trim(patch.name.value) != "")
    && (patch.description.Some? ==> patch.description.value != "")
    && (patch.price.Some? ==> patch.price.value >= 0)
    && (patch.category.Some? ==> patch.category.value in Categories)
    && (patch.stock.Some? ==> patch.stock.value >= 0)
  }

  /** The stored product after the update: each supplied field replaces the old
      one (the name trimmed), `updatedAt` becomes `now`, nothing else changes. */
  function ApplyUpdate(p: Product, patch: ProductInput, now: int): (r: Product)
    ensures r.id == p.id && r.createdAt == p.createdAt && r.updatedAt == now
    ensures r.name == (if patch.name.Some? then Trim(patch.name.value) else p.name)
    ensures r.description == patch.description.GetOr(p.description)
    ensures r.price == patch.price.GetOr(p.price)
    ensures r.category == patch.category.GetOr(p.category)
    ensures r.imageUrl == (if patch.imageUrl.Some? then patch.imageUrl else p.imageUrl)
    ensures r.stock == patch.stock.GetOr(p.stock)
  {
    Product(
      p.id,
      if patch.name.Some? then Trim(patch.name.value) else p.name,
      patch.description.GetOr(p.description),
      patch.price.GetOr(p.price),
      patch.category.GetOr(p.category),
      if patch.imageUrl.Some? then patch.imageUrl else p.imageUrl,
      patch.stock.GetOr(p.stock),
      p.createdAt,
      now)
  }

  /** On a valid stored product, the merged record is valid exactly when the update
      validators accept the update. */
  lemma UpdateValidIffAccepted(p: Product, patch: ProductInput, now: int)
    requires ValidProduct(p)
    ensures ValidProduct(ApplyUpdate(p, patch, now)) <==> AcceptsUpdate(patch)
  {
    if patch.name.Some? {
      TrimIdempotent(patch.name.value);
    }
  }

  /** An empty update changes only `updatedAt`. */
  lemma EmptyUpdateOnlyTouches(p: Product, now: int)
    ensures ApplyUpdate(p, ProductInput(None, None, None, None, None, None), now) == p.(updatedAt := now)
  {
  }

  /** The pre-save hook: `this.updatedAt = new Date()`, with the clock passed in. */
  function PreSave(p: Product, now: int): (r: Product)
    ensures r.updatedAt == now
    ensures r.(updatedAt := p.updatedAt) == p
  {
    p.(updatedAt := now)
  }

  /** The stored document as the driver hands it to `toJSON`: `_id`, the version
      key `__v`, and every field (an absent imageUrl is absent). */
  function Document(p: Product, version: int): map<string, Value> {
    var m := map[
      "_id" := Str(p.id), "__v" := Num(version),
      "name" := Str(p.name), "description" := Str(p.description),
      "price" := Num(p.price), "category" := Str(p.category),
      "stock" := Num(p.stock), "createdAt" := Num(p.createdAt), "updatedAt" := Num(p.updatedAt)];
    if p.imageUrl.Some? then m["imageUrl" := Str(p.imageUrl.value)] else m
  }

  /** What a client receives for a product: its fields under their schema names,
      the id under `id`, and an absent imageUrl left out. */
  function JsonFields(p: Product): map<string, Value> {
    var m := map[
      "id" := Str(p.id),
      "name" := Str(p.name), "description" := Str(p.description),
      "price" := Num(p.price), "category" := Str(p.category),
      "stock" := Num(p.stock), "createdAt" := Num(p.createdAt), "updatedAt" := Num(p.updatedAt)];
    if p.imageUrl.Some? then m["imageUrl" := Str(p.imageUrl.value)] else m
  }

  /** The transform turns the stored document into the client's view, whatever the
      version key held. */
  lemma RenamedDocumentIsFields(p: Product, version: int)
    ensures Renamed(Document(p, version)) == JsonFields(p)
  {
    var d := Document(p, version);
    var r := Renamed(d);
    assert r.Keys == JsonFields(p).Keys;
  }

  /** `res.json(product)`: the document after the schema's toJSON transform. It is
      the client's view of the product: `id` equal to `_id`, neither `_id` nor
      `__v`, and every field with its stored value. */
  method ToJson(p: Product, version: int) returns (json: map<string, Value>)
    ensures json == JsonFields(p)
    ensures "_id" !in json && "__v" !in json
    ensures json.Keys == Document(p, version).Keys - {"_id", "__v"} + {"id"}
  {
    var doc := Document(p, version);
    var ret := new JsonObject(doc);
    ret.RenameId();
    json := ret.fields;
    RenamedDocumentIsFields(p, version);
  }
}
