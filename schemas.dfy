/**
 * The fixed vocabulary of the insight engine and the records passed between its stages:
 * the sixteen canonical metrics with their synonyms, the column mapping, raw cell values,
 * findings and the request's non-empty-dataset check.
 */
module Schemas {
  import opened Wrappers

  // ---------------------------------------------------------------------------
  // Canonical vocabulary
  // ---------------------------------------------------------------------------

  /** The canonical metrics, declared in the order of the vocabulary table. */
  datatype Canonical =
    | CampaignName | AdSetName | AdName | AdId | Spend | Impressions | Clicks | Ctr
    | Frequency | Roas | Purchases | PurchaseValue | AddsToCart | Ctr7d | CtrPrev7 | Status

  /** Every canonical metric once, in declaration order. */
  const ALL_CANONICALS: seq<Canonical> :=
    [ CampaignName, AdSetName, AdName, AdId, Spend, Impressions, Clicks, Ctr,
      Frequency, Roas, Purchases, PurchaseValue, AddsToCart, Ctr7d, CtrPrev7, Status ]

  /** The key of a canonical metric in the vocabulary table (also its mapping field name). */
  function Name(c: Canonical): string {
    match c
    case CampaignName => "campaign_name"
    case AdSetName => "ad_set_name"
    case AdName => "ad_name"
    case AdId => "ad_id"
    case Spend => "spend"
    case Impressions => "impressions"
    case Clicks => "clicks"
    case Ctr => "ctr"
    case Frequency => "frequency"
    case Roas => "roas"
    case Purchases => "purchases"
    case PurchaseValue => "purchase_value"
    case AddsToCart => "adds_to_cart"
    case Ctr7d => "ctr_7d"
    case CtrPrev7 => "ctr_prev7"
    case Status => "status"
  }

  /** The accepted human-readable labels of a canonical metric, in table order. */
  function Synonyms(c: Canonical): seq<string> {
    match c
    case CampaignName => ["campaign name", "campaign"]
    case AdSetName => ["ad set name", "adset", "ad set"]
    case AdName => ["ad name", "ad"]
    case AdId => ["ad id", "creative id", "asset id"]
    case Spend => ["spend", "cost"]
    case Impressions => ["impressions", "impr"]
    case Clicks => ["clicks", "link clicks"]
    case Ctr => ["ctr", "click through rate", "ctr %"]
    case Frequency => ["frequency"]
    case Roas => ["roas", "return on ad spend"]
    case Purchases => ["purchases", "purchase"]
    case PurchaseValue => ["purchase value", "purchase revenue", "revenue"]
    case AddsToCart => ["adds to cart", "atc"]
    case Ctr7d => ["ctr 7d", "ctr last 7"]
    case CtrPrev7 => ["ctr prev7", "ctr previous 7"]
    case Status => ["status"]
  }

  /** The position of a canonical metric in declaration order. */
  function Ordinal(c: Canonical): (i: nat)
    ensures i < |ALL_CANONICALS| && ALL_CANONICALS[i] == c
  {
    match c
    case CampaignName => 0
    case AdSetName => 1
    case AdName => 2
    case AdId => 3
    case Spend => 4
    case Impressions => 5
    case Clicks => 6
    case Ctr => 7
    case Frequency => 8
    case Roas => 9
    case Purchases => 10
    case PurchaseValue => 11
    case AddsToCart => 12
    case Ctr7d => 13
    case CtrPrev7 => 14
    case Status => 15
  }

  /** Membership test `name in CANONICAL_COLUMNS`, giving the metric the name denotes. */
  function FromName(name: string): (r: Option<Canonical>)
    ensures r.Some? ==> Name(r.value) == name
    ensures forall c :: Name(c) == name ==> r == Some(c)
  {
    if name == "campaign_name" then Some(CampaignName)
    else if name == "ad_set_name" then Some(AdSetName)
    else if name == "ad_name" then Some(AdName)
    else if name == "ad_id" then Some(AdId)
    else if name == "spend" then Some(Spend)
    else if name == "impressions" then Some(Impressions)
    else if name == "clicks" then Some(Clicks)
    else if name == "ctr" then Some(Ctr)
    else if name == "frequency" then Some(Frequency)
    else if name == "roas" then Some(Roas)
    else if name == "purchases" then Some(Purchases)
    else if name == "purchase_value" then Some(PurchaseValue)
    else if name == "adds_to_cart" then Some(AddsToCart)
    else if name == "ctr_7d" then Some(Ctr7d)
    else if name == "ctr_prev7" then Some(CtrPrev7)
    else if name == "status" then Some(Status)
    else None
  }

  /** The vocabulary has sixteen distinct keys, listed once each in declaration order. */
  lemma CanonicalTableShape()
    ensures |ALL_CANONICALS| == 16
    ensures forall i :: 0 <= i < |ALL_CANONICALS| ==> Ordinal(ALL_CANONICALS[i]) == i
    ensures forall c1, c2 :: Name(c1) == Name(c2) ==> c1 == c2
  {
    forall c1, c2 | Name(c1) == Name(c2) ensures c1 == c2 {
      assert FromName(Name(c1)) == Some(c1) && FromName(Name(c2)) == Some(c2);
    }
  }

  // ---------------------------------------------------------------------------
  // Column mapping
  // ---------------------------------------------------------------------------

  /** A header name, or None when the canonical metric is unresolved. */
  type Header = Option<string>

  /** One optional dataset header per canonical metric, as a fixed-field record. */
  datatype ColumnMapping = ColumnMapping(
    campaignName: Header, adSetName: Header, adName: Header, adId: Header,
    spend: Header, impressions: Header, clicks: Header, ctr: Header,
    frequency: Header, roas: Header, purchases: Header, purchaseValue: Header,
    addsToCart: Header, ctr7d: Header, ctrPrev7: Header, status: Header)

  /** The field of `m` that belongs to canonical metric `c`. */
  function Resolve(m: ColumnMapping, c: Canonical): Header {
    match c
    case CampaignName => m.campaignName
    case AdSetName => m.adSetName
    case AdName => m.adName
    case AdId => m.adId
    case Spend => m.spend
    case Impressions => m.impressions
    case Clicks => m.clicks
    case Ctr => m.ctr
    case Frequency => m.frequency
    case Roas => m.roas
    case Purchases => m.purchases
    case PurchaseValue => m.purchaseValue
    case AddsToCart => m.addsToCart
    case Ctr7d => m.ctr7d
    case CtrPrev7 => m.ctrPrev7
    case Status => m.status
  }

  /** Two mappings that resolve every canonical metric alike are the same mapping. */
  lemma MappingExtensional(m1: ColumnMapping, m2: ColumnMapping)
    requires forall c :: Resolve(m1, c) == Resolve(m2, c)
    ensures m1 == m2
  {
    assert Resolve(m1, CampaignName) == Resolve(m2, CampaignName);
    assert Resolve(m1, AdSetName) == Resolve(m2, AdSetName);
    assert Resolve(m1, AdName) == Resolve(m2, AdName);
    assert Resolve(m1, AdId) == Resolve(m2, AdId);
    assert Resolve(m1, Spend) == Resolve(m2, Spend);
    assert Resolve(m1, Impressions) == Resolve(m2, Impressions);
    assert Resolve(m1, Clicks) == Resolve(m2, Clicks);
    assert Resolve(m1, Ctr) == Resolve(m2, Ctr);
    assert Resolve(m1, Frequency) == Resolve(m2, Frequency);
    assert Resolve(m1, Roas) == Resolve(m2, Roas);
    assert Resolve(m1, Purchases) == Resolve(m2, Purchases);
    assert Resolve(m1, PurchaseValue) == Resolve(m2, PurchaseValue);
    assert Resolve(m1, AddsToCart) == Resolve(m2, AddsToCart);
    assert Resolve(m1, Ctr7d) == Resolve(m2, Ctr7d);
    assert Resolve(m1, CtrPrev7) == Resolve(m2, CtrPrev7);
    assert Resolve(m1, Status) == Resolve(m2, Status);
  }

  /** A mapping built with every field left at its default. */
  function EmptyMapping(): (m: ColumnMapping)
    ensures forall c :: Resolve(m, c) == None
  {
    ColumnMapping(None, None, None, None, None, None, None, None,
                  None, None, None, None, None, None, None, None)
  }

  /**
   * `ColumnMapping(**table)` for the resolver's table, which holds one entry per canonical
   * metric in declaration order; entry `k` belongs to `ALL_CANONICALS[k]`.
   */
  function FromEntries(entries: seq<Header>): (m: ColumnMapping)
    requires |entries| == |ALL_CANONICALS|
    ensures forall c :: Resolve(m, c) == entries[Ordinal(c)]
  {
    ColumnMapping(
      entries[0], entries[1], entries[2], entries[3],
      entries[4], entries[5], entries[6], entries[7],
      entries[8], entries[9], entries[10], entries[11],
      entries[12], entries[13], entries[14], entries[15])
  }

  /**
   * `resolve(name)` for a canonical name: the stored header of that metric. Other attribute
   * names of the object (its methods and the pydantic members) are not modelled; they give None here.
   */
  function ResolveName(m: ColumnMapping, name: string): (r: Header)
    ensures forall c :: Name(c) == name ==> r == Resolve(m, c)
    ensures FromName(name).None? ==> r.None?
  {
    match FromName(name)
    case Some(c) => Resolve(m, c)
    case None => None
  }

  /** Python truthiness of an optional header: present and not the empty string. */
  predicate Truthy(h: Header) {
    h.Some? && |h.value| != 0
  }

  /** Ordered by declaration position, hence also free of repetitions. */
  predicate InDeclarationOrder(cs: seq<Canonical>) {
    forall i, j :: 0 <= i < j < |cs| ==> Ordinal(cs[i]) < Ordinal(cs[j])
  }

  /**
   * The comprehension over the dumped fields: the metrics of `cs` whose header in `m` is
   * truthy, keeping their order.
   */
  function TruthyFields(m: ColumnMapping, cs: seq<Canonical>): (r: seq<Canonical>)
    ensures forall c :: c in r <==> c in cs && Truthy(Resolve(m, c))
    ensures InDeclarationOrder(cs) ==> InDeclarationOrder(r)
  {
    if cs == [] then []
    else
      var rest := TruthyFields(m, cs[1..]);
      if Truthy(Resolve(m, cs[0])) then
        assert InDeclarationOrder(cs) ==> forall c :: c in rest ==> Ordinal(cs[0]) < Ordinal(c);
        [cs[0]] + rest
      else rest
  }

  /** `available_metrics()`: the canonical metrics with a non-empty header, in declaration order. */
  function AvailableMetrics(m: ColumnMapping): (r: seq<Canonical>)
    ensures forall c :: c in r <==> Truthy(Resolve(m, c))
    ensures InDeclarationOrder(r)
  {
    CanonicalTableShape();
    assert forall c :: c in ALL_CANONICALS by {
      forall c ensures c in ALL_CANONICALS { assert ALL_CANONICALS[Ordinal(c)] == c; }
    }
    TruthyFields(m, ALL_CANONICALS)
  }

  /** A freshly built mapping resolves nothing and offers no metrics. */
  lemma EmptyMappingHasNoMetrics()
    ensures forall c :: Resolve(EmptyMapping(), c) == None
    ensures AvailableMetrics(EmptyMapping()) == []
  {
    var r := AvailableMetrics(EmptyMapping());
    if r != [] {
      assert r[0] in r;
    }
  }

  // ---------------------------------------------------------------------------
  // Raw values and records
  // ---------------------------------------------------------------------------

  /** A Python float: a finite value (rounding not modelled), an infinity, or NaN. */
  datatype Num = Finite(r: real) | PosInf | NegInf | NaN

  /** A cell value of a raw record or derived row, standing for Python's `Any` from JSON. */
  datatype Value =
    | Null
    | Bool(b: bool)
    | Int(i: int)
    | Float(x: Num)
    | Str(s: string)
    | Other(empty: bool)  // a list or object cell; `empty` when it has no elements

  /** One input row: a mapping from raw header to value. */
  type Record = map<string, Value>

  /** `record.get(column)`: the value under `column`, or None when the key is absent. */
  function Get(record: Record, column: string): (v: Value)
    ensures column !in record ==> v == Null
    ensures column in record ==> v == record[column]
  {
    if column in record then record[column] else Null
  }

  // ---------------------------------------------------------------------------
  // Findings
  // ---------------------------------------------------------------------------

  /** The severity domain of a finding. */
  datatype Severity = Info | Warning | Critical | Opportunity

  function SeverityName(s: Severity): string {
    match s
    case Info => "info"
    case Warning => "warning"
    case Critical => "critical"
    case Opportunity => "opportunity"
  }

  /** The severity a finding gets when none is given. */
  const DEFAULT_SEVERITY: Severity := Info

  /**
   * Validation of the severity literal of a finding: an omitted severity takes the default,
   * a given one must be one of the four names.
   */
  function ValidateSeverity(given: Option<string>): (r: Option<Severity>)
    ensures given.None? ==> r == Some(Info)
    ensures given.Some? ==> (r.Some? <==> given.value in {"info", "warning", "critical", "opportunity"})
    ensures given.Some? && r.Some? ==> SeverityName(r.value) == given.value
  {
    match given
    case None => Some(DEFAULT_SEVERITY)
    case Some(s) =>
      if s == "info" then Some(Info)
      else if s == "warning" then Some(Warning)
      else if s == "critical" then Some(Critical)
      else if s == "opportunity" then Some(Opportunity)
      else None
  }

  /** Every severity survives validation of its own name. */
  lemma SeverityRoundTrip(s: Severity)
    ensures ValidateSeverity(Some(SeverityName(s))) == Some(s)
  {
  }

  /** One entry of the offenders list of the spend rule's evidence. */
  datatype Offender = Offender(spend: Value, purchases: Value, campaignName: Value, adName: Value)

  /** A supporting value of a finding: a number, or the list of offending rows. */
  datatype Evidence = Number(x: real) | Offenders(rows: seq<Offender>)

  /** A finding produced by one rule. The action and rationale are opaque text. */
  datatype Insight = Insight(
    code: string,
    labelText: string,
    severity: Severity,
    action: string,
    rationale: string,
    metrics: map<string, Evidence>)

  // ---------------------------------------------------------------------------
  // Request
  // ---------------------------------------------------------------------------

  /** The engine's input: the rows and optional column hints. */
  datatype InsightRequest = InsightRequest(data: seq<Record>, columnHints: Option<map<string, string>>)

  const EMPTY_DATA_MESSAGE: string := "At least one row of data is required"

  /** Building a request rejects an empty dataset and accepts every other one unchanged. */
  function NewRequest(data: seq<Record>, columnHints: Option<map<string, string>>): (r: Result<InsightRequest, string>)
    ensures r.Ok? <==> |data| > 0
    ensures r.Ok? ==> r.value.data == data && r.value.columnHints == columnHints
    ensures r.Err? ==> r.error == EMPTY_DATA_MESSAGE
  {
    if |data| == 0 then Err(EMPTY_DATA_MESSAGE)
    else Ok(InsightRequest(data, columnHints))
  }
}
