/** The configuration (delivery-governance) record and its schema: the enumerations
    of the three status fields, the defaults a new record gets, and the uniqueness
    of `name` across the collection. */
module ConfigModel {
  import opened Common

  /** A stored configuration record. The status fields are strings: documents
      already in the collection may hold values outside the enumerations, which
      is why the statistics keep an `others` bucket. Rates are whole percentages
      and times are integer timestamps; `lastDeliveryTime` None is null. */
  datatype Config = Config(
    id: Id,
    name: string,
    status: string,
    deliveryStatus: string,
    upgradeDeliveryStatus: string,
    totalDelivery: int,
    deliveryRate: int,
    upgradeRate: int,
    lastDeliveryTime: Option<int>,
    createdAt: int,
    updatedAt: int)

  const StatusValues: seq<string> := ["normal", "warning", "error"]
  const DeliveryStatusValues: seq<string> := ["delivered", "delivering", "undelivered"]
  const UpgradeStatusValues: seq<string> := ["upgraded", "not_upgraded"]

  const DefaultStatus := "normal"
  const DefaultDeliveryStatus := "undelivered"
  const DefaultUpgradeStatus := "not_upgraded"

  /** The fields a new record is given; None is a field left out. */
  datatype ConfigInput = ConfigInput(
    name: Option<string>,
    status: Option<string>,
    deliveryStatus: Option<string>,
    upgradeDeliveryStatus: Option<string>,
    totalDelivery: Option<int>,
    deliveryRate: Option<int>,
    upgradeRate: Option<int>,
    lastDeliveryTime: Option<int>,
    createdAt: Option<int>,
    updatedAt: Option<int>)

  /** What the schema validators accept of a record. */
  predicate ValidConfig(c: Config) {
    && c.name != ""
    && c.status in StatusValues
    && c.deliveryStatus in DeliveryStatusValues
    && c.upgradeDeliveryStatus in UpgradeStatusValues
  }

  /** The validators accept what was supplied: a non-empty name, and every supplied
      status one of its enumeration. */
  predicate AcceptsInput(input: ConfigInput) {
    && input.name.Some? && input.name.value != ""
    && (input.status.Some? ==> input.status.value in StatusValues)
    && (input.deliveryStatus.Some? ==> input.deliveryStatus.value in DeliveryStatusValues)
    && (input.upgradeDeliveryStatus.Some? ==> input.upgradeDeliveryStatus.value in UpgradeStatusValues)
  }

  /** A new document: each absent field takes its schema default (statuses normal,
      undelivered and not_upgraded, numbers 0, lastDeliveryTime null, both times
      `now`), then validation either accepts it or rejects it. */
  function NewConfig(input: ConfigInput, id: Id, now: int): (r: Option<Config>)
    ensures r.Some? <==> AcceptsInput(input)
    ensures r.Some? ==> ValidConfig(r.value) && r.value.id == id && r.value.name == input.name.value
  {
    var c := Config(
      id,
      input.name.GetOr(""),
      input.status.GetOr(DefaultStatus),
      input.deliveryStatus.GetOr(DefaultDeliveryStatus),
      input.upgradeDeliveryStatus.GetOr(DefaultUpgradeStatus),
      input.totalDelivery.GetOr(0),
      input.deliveryRate.GetOr(0),
      input.upgradeRate.GetOr(0),
      input.lastDeliveryTime,
      input.createdAt.GetOr(now),
      input.updatedAt.GetOr(now));
    if ValidConfig(c) then Some(c) else None
  }

  /** A record given only a name gets every default. */
  lemma NameOnlyGetsDefaults(name: string, id: Id, now: int)
    requires name != ""
    ensures var r := NewConfig(ConfigInput(Some(name), None, None, None, None, None, None, None, None, None), id, now);
            && r.Some?
            && r.value.status == "normal"
            && r.value.deliveryStatus == "undelivered"
            && r.value.upgradeDeliveryStatus == "not_upgraded"
            && r.value.totalDelivery == 0 && r.value.deliveryRate == 0 && r.value.upgradeRate == 0
            && r.value.lastDeliveryTime == None
            && r.value.createdAt == now && r.value.updatedAt == now
  {
  }

  /** Every supplied field is kept as given. */
  lemma SuppliedFieldsKept(input: ConfigInput, id: Id, now: int)
    requires NewConfig(input, id, now).Some?
    ensures var c := NewConfig(input, id, now).value;
            && (input.status.Some? ==> c.status == input.status.value)
            && (input.deliveryStatus.Some? ==> c.deliveryStatus == input.deliveryStatus.value)
            && (input.upgradeDeliveryStatus.Some? ==> c.upgradeDeliveryStatus == input.upgradeDeliveryStatus.value)
            && (input.totalDelivery.Some? ==> c.totalDelivery == input.totalDelivery.value)
            && (input.deliveryRate.Some? ==> c.deliveryRate == input.deliveryRate.value)
            && (input.upgradeRate.Some? ==> c.upgradeRate == input.upgradeRate.value)
            && c.lastDeliveryTime == input.lastDeliveryTime
            && (input.createdAt.Some? ==> c.createdAt == input.createdAt.value)
            && (input.updatedAt.Some? ==> c.updatedAt == input.updatedAt.value)
  {
  }

  ghost predicate NamesUnique(s: seq<Config>) {
    forall i, j :: 0 <= i < j < |s| ==> s[i].name != s[j].name
  }

  /** An insert under the unique index on `name`: refused (None) when the name is taken. */
  function InsertConfig(s: seq<Config>, c: Config): (r: Option<seq<Config>>)
    ensures r.None? <==> exists i :: 0 <= i < |s| && s[i].name == c.name
    ensures r.Some? ==> r.value == s + [c]
  {
    if exists i :: 0 <= i < |s| && s[i].name == c.name then None else Some(s + [c])
  }

  /** The unique index keeps names unique. */
  lemma InsertKeepsNamesUnique(s: seq<Config>, c: Config)
    requires NamesUnique(s) && InsertConfig(s, c).Some?
    ensures NamesUnique(InsertConfig(s, c).value)
  {
    var t := s + [c];
    forall i, j | 0 <= i < j < |t| ensures t[i].name != t[j].name {
      if j == |s| {
        assert t[i] == s[i];
      }
    }
  }
}
