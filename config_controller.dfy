/** The configuration controller: the paged list with whole-collection statistics
    and month-over-month counts, the governance and delivery breakdowns, and the
    rows of the spreadsheet export. Every aggregation pipeline here is a single
    `$group` with `_id: null`, i.e. one fold over the collection. */
module ConfigController {
  import opened Common
  import opened Query
  import opened ConfigModel

  const ListFailure := "获取配置数据失败"

  // ---------------------------------------------------------------------------
  // Search
  // ---------------------------------------------------------------------------

  /** `search ? { name: { $regex: search, $options: 'i' } } : {}` */
  function NameFilter(search: Option<string>): Config -> bool {
    (c: Config) => !Truthy(search) || MatchesIgnoreCase(c.name, search.value)
  }

  /** The records the query selects, in natural order. */
  function Matching(s: seq<Config>, search: Option<string>): (r: seq<Config>)
    ensures forall i :: 0 <= i < |r| ==> r[i] in s
    ensures Truthy(search) ==> forall i :: 0 <= i < |r| ==> MatchesIgnoreCase(r[i].name, search.value)
    ensures Truthy(search) ==> forall i :: 0 <= i < |s| && MatchesIgnoreCase(s[i].name, search.value) ==> s[i] in r
    ensures !Truthy(search) ==> r == s
  {
    var r := Filter(s, NameFilter(search));
    if !Truthy(search) then FilterKeepsAll(s, NameFilter(search)); r else r
  }

  // ---------------------------------------------------------------------------
  // Governance and delivery breakdowns
  // ---------------------------------------------------------------------------

  datatype GovernanceData = GovernanceData(normal: nat, warning: nat, error: nat, others: nat)
  datatype DeliveryData = DeliveryData(delivered: nat, delivering: nat, undelivered: nat, others: nat)

  /** The `$group` of getGovernanceData: one bucket per known status, and `others`
      for every status outside ['normal', 'warning', 'error']. */
  function GovernanceTally(s: seq<Config>): (r: GovernanceData)
    ensures r.normal + r.warning + r.error + r.others == |s|
  {
    if s == [] then GovernanceData(0, 0, 0, 0)
    else
      var t := GovernanceTally(s[1..]);
      var st := s[0].status;
      GovernanceData(
        t.normal + (if st == "normal" then 1 else 0),
        t.warning + (if st == "warning" then 1 else 0),
        t.error + (if st == "error" then 1 else 0),
        t.others + (if st !in StatusValues then 1 else 0))
  }

  /** `data[0] || { normal: 0, warning: 0, error: 0, others: 0 }`: an empty
      collection yields no group and the zero object is sent instead. */
  function GetGovernanceData(s: seq<Config>): (r: GovernanceData)
    ensures r.normal + r.warning + r.error + r.others == |s|
    ensures s == [] ==> r == GovernanceData(0, 0, 0, 0)
  {
    if |s| == 0 then GovernanceData(0, 0, 0, 0) else GovernanceTally(s)
  }

  /** The `$group` of getDeliveryData, with `others` outside
      ['delivered', 'delivering', 'undelivered']. */
  function DeliveryTally(s: seq<Config>): (r: DeliveryData)
    ensures r.delivered + r.delivering + r.undelivered + r.others == |s|
  {
    if s == [] then DeliveryData(0, 0, 0, 0)
    else
      var t := DeliveryTally(s[1..]);
      var st := s[0].deliveryStatus;
      DeliveryData(
        t.delivered + (if st == "delivered" then 1 else 0),
        t.delivering + (if st == "delivering" then 1 else 0),
        t.undelivered + (if st == "undelivered" then 1 else 0),
        t.others + (if st !in DeliveryStatusValues then 1 else 0))
  }

  function GetDeliveryData(s: seq<Config>): (r: DeliveryData)
    ensures r.delivered + r.delivering + r.undelivered + r.others == |s|
    ensures s == [] ==> r == DeliveryData(0, 0, 0, 0)
  {
    if |s| == 0 then DeliveryData(0, 0, 0, 0) else DeliveryTally(s)
  }

  function StatusIs(v: string): Config -> bool { (c: Config) => c.status == v }
  function StatusUnknown(): Config -> bool { (c: Config) => c.status !in StatusValues }
  function DeliveryStatusIs(v: string): Config -> bool { (c: Config) => c.deliveryStatus == v }
  function DeliveryStatusUnknown(): Config -> bool { (c: Config) => c.deliveryStatus !in DeliveryStatusValues }

  /** Each governance bucket is the number of records in it. */
  lemma {:induction false} GovernanceBucketsAreCounts(s: seq<Config>)
    ensures var r := GetGovernanceData(s);
            && r.normal == CountIf(s, StatusIs("normal"))
            && r.warning == CountIf(s, StatusIs("warning"))
            && r.error == CountIf(s, StatusIs("error"))
            && r.others == CountIf(s, StatusUnknown())
  {
    if s != [] {
      GovernanceBucketsAreCounts(s[1..]);
    }
  }

  /** Each delivery bucket is the number of records in it. */
  lemma {:induction false} DeliveryBucketsAreCounts(s: seq<Config>)
    ensures var r := GetDeliveryData(s);
            && r.delivered == CountIf(s, DeliveryStatusIs("delivered"))
            && r.delivering == CountIf(s, DeliveryStatusIs("delivering"))
            && r.undelivered == CountIf(s, DeliveryStatusIs("undelivered"))
            && r.others == CountIf(s, DeliveryStatusUnknown())
  {
    if s != [] {
      DeliveryBucketsAreCounts(s[1..]);
    }
  }

  /** A collection that satisfies the schema has nothing in `others`. */
  lemma {:induction false} ValidRecordsHaveNoOthers(s: seq<Config>)
    requires forall i :: 0 <= i < |s| ==> ValidConfig(s[i])
    ensures GetGovernanceData(s).others == 0 && GetDeliveryData(s).others == 0
  {
    if s != [] {
      ValidRecordsHaveNoOthers(s[1..]);
    }
  }

  // ---------------------------------------------------------------------------
  // The list with its statistics
  // ---------------------------------------------------------------------------

  /** The first `$group` of getConfigList. The two averages are left out. */
  datatype Summary = Summary(
    totalConfigs: nat, normalConfigs: nat, warningConfigs: nat, errorConfigs: nat, deliveryCount: int)

  /** The second `$group`: records created since the cutoff, records delivered since
      the cutoff, and upgraded records. */
  datatype MonthlyChange = MonthlyChange(configs: nat, delivery: nat, upgrade: nat)

  /** `{ ...statistics[0], monthlyChange: monthlyChanges[0] }`: on an empty
      collection both groups are missing, so neither part is present. */
  datatype Statistics = Statistics(summary: Option<Summary>, monthlyChange: Option<MonthlyChange>)

  datatype ConfigList = ConfigList(data: seq<Config>, total: nat, statistics: Statistics)

  function SummaryOf(s: seq<Config>): (r: Summary)
    ensures r.totalConfigs == |s|
    ensures r.normalConfigs + r.warningConfigs + r.errorConfigs <= r.totalConfigs
  {
    if s == [] then Summary(0, 0, 0, 0, 0)
    else
      var t := SummaryOf(s[1..]);
      var st := s[0].status;
      Summary(
        t.totalConfigs + 1,
        t.normalConfigs + (if st == "normal" then 1 else 0),
        t.warningConfigs + (if st == "warning" then 1 else 0),
        t.errorConfigs + (if st == "error" then 1 else 0),
        t.deliveryCount + s[0].totalDelivery)
  }

  /** `$gte` of a timestamp against the cutoff; null is below every date. */
  predicate AtOrAfter(t: Option<int>, cutoff: int) {
    t.Some? && t.value >= cutoff
  }

  function MonthlyChangeOf(s: seq<Config>, cutoff: int): (r: MonthlyChange)
    ensures r.configs <= |s| && r.delivery <= |s| && r.upgrade <= |s|
  {
    if s == [] then MonthlyChange(0, 0, 0)
    else
      var t := MonthlyChangeOf(s[1..], cutoff);
      MonthlyChange(
        t.configs + (if s[0].createdAt >= cutoff then 1 else 0),
        t.delivery + (if AtOrAfter(s[0].lastDeliveryTime, cutoff) then 1 else 0),
        t.upgrade + (if s[0].upgradeDeliveryStatus == "upgraded" then 1 else 0))
  }

  /** getConfigList. `page` and `pageSize` default to 1 and 10 when absent; the
      one-month-ago cutoff is passed in. A negative skip is refused by the store,
      and the handler answers 500. */
  function GetConfigList(
    s: seq<Config>, page: Option<int>, pageSize: Option<int>, search: Option<string>, cutoff: int)
    : (r: Response<ConfigList>)
    ensures r.ServerError? <==> SkipFor(page.GetOr(1), pageSize.GetOr(10)) < 0
    ensures r.Ok? || r == ServerError(ListFailure)
    ensures r.Ok? ==> (r.body.statistics.summary.None? <==> s == [])
    ensures r.Ok? ==> (r.body.statistics.monthlyChange.None? <==> s == [])
    ensures r.Ok? && s != [] ==> r.body.statistics.summary.value.totalConfigs == |s|
  {
    var p := page.GetOr(1);
    var n := pageSize.GetOr(10);
    var skip := SkipFor(p, n);
    if skip < 0 then ServerError(ListFailure)
    else
      var m := Matching(s, search);
      Ok(ConfigList(
        Paginate(m, skip, n),
        |m|,
        if |s| == 0 then Statistics(None, None)
        else Statistics(Some(SummaryOf(s)), Some(MonthlyChangeOf(s, cutoff)))))
  }

  /** The page is the skip/limit window at (page−1)·pageSize over the matching
      records, at most pageSize of them, and `total` counts every match. */
  lemma GetConfigListPage(
    s: seq<Config>, page: Option<int>, pageSize: Option<int>, search: Option<string>, cutoff: int)
    requires GetConfigList(s, page, pageSize, search, cutoff).Ok?
    ensures var r := GetConfigList(s, page, pageSize, search, cutoff).body;
            && r.total == CountIf(s, NameFilter(search))
            && r.data == Paginate(Matching(s, search), SkipFor(page.GetOr(1), pageSize.GetOr(10)), pageSize.GetOr(10))
    ensures pageSize.GetOr(10) > 0 ==> |GetConfigList(s, page, pageSize, search, cutoff).body.data| <= pageSize.GetOr(10)
  {
    CountIfIsFilterLength(s, NameFilter(search));
  }

  /** Every listed record is stored and, for a non-empty search, its name matches. */
  lemma GetConfigListMembers(
    s: seq<Config>, page: Option<int>, pageSize: Option<int>, search: Option<string>, cutoff: int)
    requires GetConfigList(s, page, pageSize, search, cutoff).Ok?
    ensures var d := GetConfigList(s, page, pageSize, search, cutoff).body.data;
            && (forall i :: 0 <= i < |d| ==> d[i] in s)
            && (Truthy(search) ==> forall i :: 0 <= i < |d| ==> MatchesIgnoreCase(d[i].name, search.value))
  {
    var m := Matching(s, search);
    var skip := SkipFor(page.GetOr(1), pageSize.GetOr(10));
    var d := GetConfigList(s, page, pageSize, search, cutoff).body.data;
    assert d == Paginate(m, skip, pageSize.GetOr(10));
    var lo := Min(skip, |m|);
    forall i | 0 <= i < |d| ensures d[i] in s && (Truthy(search) ==> MatchesIgnoreCase(d[i].name, search.value)) {
      assert d[i] == m[lo + i];
    }
  }

  /** The statistics summarise the whole collection: the search does not change them. */
  lemma StatisticsIgnoreSearch(
    s: seq<Config>, page: Option<int>, pageSize: Option<int>, search: Option<string>, cutoff: int)
    requires GetConfigList(s, page, pageSize, search, cutoff).Ok?
    ensures GetConfigList(s, page, pageSize, None, cutoff).Ok?
    ensures GetConfigList(s, page, pageSize, search, cutoff).body.statistics
         == GetConfigList(s, page, pageSize, None, cutoff).body.statistics
    ensures s != [] ==> GetConfigList(s, page, pageSize, search, cutoff).body.statistics
                        == Statistics(Some(SummaryOf(s)), Some(MonthlyChangeOf(s, cutoff)))
    ensures s == [] ==> GetConfigList(s, page, pageSize, search, cutoff).body.statistics == Statistics(None, None)
  {
  }

  /** The list's status counts are the governance buckets, and deliveryCount is the
      sum of totalDelivery. */
  lemma {:induction false} SummaryAgreesWithGovernance(s: seq<Config>)
    ensures SummaryOf(s).normalConfigs == GetGovernanceData(s).normal
    ensures SummaryOf(s).warningConfigs == GetGovernanceData(s).warning
    ensures SummaryOf(s).errorConfigs == GetGovernanceData(s).error
    ensures SummaryOf(s).totalConfigs - SummaryOf(s).normalConfigs - SummaryOf(s).warningConfigs
            - SummaryOf(s).errorConfigs == GetGovernanceData(s).others
    ensures SummaryOf(s).deliveryCount == SumOf(s, (c: Config) => c.totalDelivery)
  {
    if s != [] {
      SummaryAgreesWithGovernance(s[1..]);
    }
  }

  /** monthlyChange counts: upgraded records, records created at or after the cutoff,
      and records whose last delivery is at or after it. */
  lemma {:induction false} MonthlyChangeCounts(s: seq<Config>, cutoff: int)
    ensures MonthlyChangeOf(s, cutoff).upgrade == CountIf(s, (c: Config) => c.upgradeDeliveryStatus == "upgraded")
    ensures MonthlyChangeOf(s, cutoff).configs == CountIf(s, (c: Config) => c.createdAt >= cutoff)
    ensures MonthlyChangeOf(s, cutoff).delivery == CountIf(s, (c: Config) => AtOrAfter(c.lastDeliveryTime, cutoff))
  {
    if s != [] {
      MonthlyChangeCounts(s[1..], cutoff);
    }
  }

  /** A later cutoff never counts more records. */
  lemma {:induction false} MonthlyChangeMonotone(s: seq<Config>, early: int, late: int)
    requires early <= late
    ensures MonthlyChangeOf(s, late).configs <= MonthlyChangeOf(s, early).configs
    ensures MonthlyChangeOf(s, late).delivery <= MonthlyChangeOf(s, early).delivery
    ensures MonthlyChangeOf(s, late).upgrade == MonthlyChangeOf(s, early).upgrade
  {
    if s != [] {
      MonthlyChangeMonotone(s[1..], early, late);
    }
  }

  // ---------------------------------------------------------------------------
  // Export
  // ---------------------------------------------------------------------------

  /** A spreadsheet cell that is a time or a fixed text. */
  datatype TimeCell = At(time: int) | Placeholder(text: string)

  /** One spreadsheet row, in column order. Rates are whole percentages. */
  datatype ExportRow = ExportRow(
    name: string,
    status: string,
    deliveryStatus: string,
    upgradeStatus: string,
    totalDelivery: int,
    deliveryRate: int,
    upgradeRate: int,
    lastDeliveryTime: TimeCell,
    createdAt: int,
    updatedAt: int)

  function StatusLabel(status: string): (r: string)
    ensures r in {"正常", "预警", "异常"}
    ensures r == "正常" <==> status == "normal"
    ensures r == "预警" <==> status == "warning"
  {
    if status == "normal" then "正常" else if status == "warning" then "预警" else "异常"
  }

  function DeliveryStatusLabel(deliveryStatus: string): (r: string)
    ensures r in {"已送达", "送达中", "未送达"}
    ensures r == "已送达" <==> deliveryStatus == "delivered"
    ensures r == "送达中" <==> deliveryStatus == "delivering"
  {
    if deliveryStatus == "delivered" then "已送达"
    else if deliveryStatus == "delivering" then "送达中"
    else "未送达"
  }

  function UpgradeStatusLabel(upgradeStatus: string): (r: string)
    ensures r in {"已升级", "未升级"}
    ensures r == "已升级" <==> upgradeStatus == "upgraded"
  {
    if upgradeStatus == "upgraded" then "已升级" else "未升级"
  }

  function LastDeliveryCell(t: Option<int>): (r: TimeCell)
    ensures r.Placeholder? <==> t.None?
    ensures r.Placeholder? ==> r.text == "无"
    ensures r.At? ==> t == Some(r.time)
  {
    match t
    case Some(time) => At(time)
    case None => Placeholder("无")
  }

  /** One record as a spreadsheet row: the labels in Chinese, the numbers as stored,
      and 无 for a record never delivered. */
  function RowOf(c: Config): (r: ExportRow)
    ensures r.name == c.name && r.totalDelivery == c.totalDelivery
    ensures r.deliveryRate == c.deliveryRate && r.upgradeRate == c.upgradeRate
    ensures r.createdAt == c.createdAt && r.updatedAt == c.updatedAt
    ensures r.status == "正常" <==> c.status == "normal"
    ensures r.deliveryStatus == "已送达" <==> c.deliveryStatus == "delivered"
    ensures r.upgradeStatus == "已升级" <==> c.upgradeDeliveryStatus == "upgraded"
    ensures r.lastDeliveryTime == Placeholder("无") <==> c.lastDeliveryTime.None?
  {
    ExportRow(
      c.name,
      StatusLabel(c.status),
      DeliveryStatusLabel(c.deliveryStatus),
      UpgradeStatusLabel(c.upgradeDeliveryStatus),
      c.totalDelivery,
      c.deliveryRate,
      c.upgradeRate,
      LastDeliveryCell(c.lastDeliveryTime),
      c.createdAt,
      c.updatedAt)
  }

  /** exportConfigData: every record the search matches, unpaged, one row each. */
  function ExportConfigData(s: seq<Config>, search: Option<string>): (r: seq<ExportRow>)
    ensures |r| == CountIf(s, NameFilter(search))
    ensures !Truthy(search) ==> |r| == |s| && forall i :: 0 <= i < |s| ==> r[i] == RowOf(s[i])
  {
    var m := Matching(s, search);
    CountIfIsFilterLength(s, NameFilter(search));
    seq(|m|, i requires 0 <= i < |m| => RowOf(m[i]))
  }

  /** The export has one row per matching record, in fetch order, as many rows as
      the list reports in `total`; and row i is the row of the i-th matching record. */
  lemma ExportRowsFollowRecords(
    s: seq<Config>, search: Option<string>, page: Option<int>, pageSize: Option<int>, cutoff: int)
    ensures var rows := ExportConfigData(s, search);
            var m := Matching(s, search);
            && |rows| == |m|
            && (forall i :: 0 <= i < |rows| ==> rows[i] == RowOf(m[i]))
            && (GetConfigList(s, page, pageSize, search, cutoff).Ok? ==>
                  |rows| == GetConfigList(s, page, pageSize, search, cutoff).body.total)
            && (!Truthy(search) ==> |rows| == |s|)
  {
  }

  function IsUpgradedRow(): ExportRow -> bool { (r: ExportRow) => r.upgradeStatus == "已升级" }

  /** Counting 已升级 rows of an unfiltered export gives monthlyChange.upgrade. */
  lemma {:induction false} UpgradedRowsMatchMonthlyUpgrade(s: seq<Config>, cutoff: int)
    ensures CountIf(ExportConfigData(s, None), IsUpgradedRow()) == MonthlyChangeOf(s, cutoff).upgrade
  {
    if s != [] {
      UpgradedRowsMatchMonthlyUpgrade(s[1..], cutoff);
      var rows := ExportConfigData(s, None);
      assert rows[1..] == ExportConfigData(s[1..], None);
    }
  }
}
