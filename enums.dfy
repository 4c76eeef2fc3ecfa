/** The label tables of the admin client and `getStatusCN`, which turns a status into
    its Chinese label. The tables are TypeScript string enums indexed by KEY NAME
    ('PENDING'), while the statuses stored by the server are the enum VALUES
    ('pending'); `getStatusCN` indexes by key name and falls back to its argument. */
module Enums {
  import opened Common

  /** The `type` argument of getStatusCN. */
  datatype StatusKind = OrderKind | ProductKind | UserKind

  /** The values of the OrderStatus enum, as the server stores them. */
  const OrderStatusValues: seq<string> := ["pending", "processing", "completed", "cancelled"]

  /** OrderStatusCN: key name to label. */
  function OrderStatusCN(key: string): Option<string> {
    if key == "PENDING" then Some("待处理")
    else if key == "PROCESSING" then Some("处理中")
    else if key == "COMPLETED" then Some("已完成")
    else if key == "CANCELLED" then Some("已取消")
    else None
  }

  /** ProductStatusCN: key name to label. */
  function ProductStatusCN(key: string): Option<string> {
    if key == "ACTIVE" then Some("在售")
    else if key == "INACTIVE" then Some("下架")
    else if key == "OUT_OF_STOCK" then Some("缺货")
    else None
  }

  /** UserStatusCN: key name to label. */
  function UserStatusCN(key: string): Option<string> {
    if key == "ACTIVE" then Some("活跃")
    else if key == "INACTIVE" then Some("未激活")
    else if key == "SUSPENDED" then Some("已停用")
    else None
  }

  /** CategoryCN: category value to label. */
  function CategoryCN(category: string): (r: Option<string>)
    ensures r.Some? <==> category in ["Fish", "Shellfish", "Other"]
  {
    if category == "Fish" then Some("鱼类")
    else if category == "Shellfish" then Some("贝类")
    else if category == "Other" then Some("其他")
    else None
  }

  function Table(kind: StatusKind, key: string): Option<string> {
    match kind
    case OrderKind => OrderStatusCN(key)
    case ProductKind => ProductStatusCN(key)
    case UserKind => UserStatusCN(key)
  }

  /** The labels one table holds. */
  function Labels(kind: StatusKind): set<string> {
    match kind
    case OrderKind => {"待处理", "处理中", "已完成", "已取消"}
    case ProductKind => {"在售", "下架", "缺货"}
    case UserKind => {"活跃", "未激活", "已停用"}
  }

  /** `Table[status] || status`: the label when `status` is a key name of the table,
      otherwise `status` itself. */
  function GetStatusCN(status: string, kind: StatusKind): (r: string)
    ensures Table(kind, status).Some? ==> r == Table(kind, status).value && r in Labels(kind)
    ensures Table(kind, status).None? ==> r == status
  {
    match Table(kind, status)
    case Some(cn) => if cn != "" then cn else status
    case None => status
  }

  /** Order key names translate: 'PENDING' to 待处理, 'COMPLETED' to 已完成. */
  lemma OrderKeyNamesTranslate()
    ensures GetStatusCN("PENDING", OrderKind) == "待处理"
    ensures GetStatusCN("PROCESSING", OrderKind) == "处理中"
    ensures GetStatusCN("COMPLETED", OrderKind) == "已完成"
    ensures GetStatusCN("CANCELLED", OrderKind) == "已取消"
  {
  }

  /** The statuses the server stores are enum values, not key names, so they come
      back untranslated. */
  lemma StoredOrderStatusesUntranslated(i: nat)
    requires i < |OrderStatusValues|
    ensures GetStatusCN(OrderStatusValues[i], OrderKind) == OrderStatusValues[i]
  {
  }

  /** A label is never a key name, so translating twice is translating once. */
  lemma GetStatusCNIdempotent(status: string, kind: StatusKind)
    ensures GetStatusCN(GetStatusCN(status, kind), kind) == GetStatusCN(status, kind)
  {
    var r := GetStatusCN(status, kind);
    if r != status {
      assert r in Labels(kind);
      assert Table(kind, r).None?;
    }
  }

  /** A string is changed exactly when it is a key name of the table. */
  lemma GetStatusCNChangesOnlyKeys(status: string, kind: StatusKind)
    ensures GetStatusCN(status, kind) != status <==> Table(kind, status).Some?
  {
    if Table(kind, status).Some? {
      assert GetStatusCN(status, kind) in Labels(kind);
    }
  }

  /** Distinct key names of one table have distinct labels. */
  lemma TablesInjective(kind: StatusKind, a: string, b: string)
    requires Table(kind, a).Some? && Table(kind, a) == Table(kind, b)
    ensures a == b
  {
  }

  /** CategoryCN gives each of the three categories its label. */
  lemma CategoryLabels()
    ensures CategoryCN("Fish") == Some("鱼类")
    ensures CategoryCN("Shellfish") == Some("贝类")
    ensures CategoryCN("Other") == Some("其他")
  {
  }
}
