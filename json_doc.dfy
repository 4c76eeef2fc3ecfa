/** The JSON form of a stored document. Both the product and the order schema
    install the same `toJSON.transform`, which rewrites the plain object `ret`
    in place: it copies `_id` to `id` and deletes `_id` and `__v`. */
module JsonDoc {

  /** A JSON value as the documents here use them: strings, numbers (integers in
      this model; dates are timestamps), and null. */
  datatype Value = Str(s: string) | Num(n: int) | Null

  /** The object after the transform when it has an `_id`. */
  function Renamed(fields: map<string, Value>): (r: map<string, Value>)
    requires "_id" in fields
    ensures r.Keys == fields.Keys - {"_id", "__v"} + {"id"}
  {
    (fields - {"_id", "__v"})["id" := fields["_id"]]
  }

  /** The plain object `ret` handed to the transform. */
  class JsonObject {
    var fields: map<string, Value>

    constructor (fields: map<string, Value>)
      ensures this.fields == fields
    {
      this.fields := fields;
    }

    /** `ret.id = ret._id; delete ret._id; delete ret.__v;`. Without an `_id`,
        `id` is set to undefined, which JSON leaves out. */
    method RenameId()
      modifies this
      ensures "_id" !in fields && "__v" !in fields
      ensures "id" in fields <==> "_id" in old(fields)
      ensures "_id" in old(fields) ==> fields["id"] == old(fields)["_id"]
      ensures forall k :: k in old(fields) && k != "id" && k != "_id" && k != "__v" ==>
                k in fields && fields[k] == old(fields)[k]
      ensures forall k :: k in fields ==> k == "id" || k in old(fields)
      ensures "_id" in old(fields) ==> fields == Renamed(old(fields))
    {
      if "_id" in fields {
        fields := fields["id" := fields["_id"]];
      } else {
        fields := fields - {"id"};
      }
      fields := fields - {"_id"};
      fields := fields - {"__v"};
    }
  }
}
