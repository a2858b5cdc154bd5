/**
 * The rule-based insight agent: five threshold rules over the metric summary, each
 * contributing at most one finding, evaluated after any caller-supplied rules.
 *
 * Python truthiness and comparisons are written out on the cell values a derived row can
 * hold. The free-text action and rationale of each finding are opaque constants.
 */
module InsightRules {
  import opened Wrappers
  import opened Schemas
  import opened Metrics

  // ---------------------------------------------------------------------------
  // Python semantics of the values the rules inspect
  // ---------------------------------------------------------------------------

  /** `aggregates.get(key)`. */
  function AggGet(aggregates: map<AggKey, real>, key: AggKey): Option<real> {
    if key in aggregates then Some(aggregates[key]) else None
  }

  /** `aggregates.get(key, 0.0)`. */
  function AggGetOr(aggregates: map<AggKey, real>, key: AggKey): real {
    if key in aggregates then aggregates[key] else 0.0
  }

  /** The truthiness of an optional float: not None and not zero. */
  predicate FloatTruthy(x: Option<real>) {
    x.Some? && x.value != 0.0
  }

  /** The truthiness of a cell: NaN and the infinities are true; zero, empty strings and empty lists or objects are false. */
  predicate ValueTruthy(v: Value) {
    match v
    case Null => false
    case Bool(b) => b
    case Int(i) => i != 0
    case Float(x) => !(x.Finite? && x.r == 0.0)
    case Str(s) => |s| != 0
    case Other(empty) => !empty
  }

  /** `v > 50` for a numeric cell; NaN compares false, infinity true. */
  predicate Exceeds50(v: Value) {
    match v
    case Bool(b) => false
    case Int(i) => i > 50
    case Float(x) => x == PosInf || (x.Finite? && x.r > 50.0)
    case _ => false
  }

  /** `v == 0` in Python. */
  predicate EqualsZero(v: Value) {
    match v
    case Bool(b) => !b
    case Int(i) => i == 0
    case Float(x) => x == Finite(0.0)
    case _ => false
  }

  /** A zero cell is falsy, so `not v or v == 0` is just `not v`. */
  lemma ZeroIsFalsy(v: Value)
    ensures EqualsZero(v) ==> !ValueTruthy(v)
  {
  }

  // ---------------------------------------------------------------------------
  // Rules
  // ---------------------------------------------------------------------------

  /** A registered rule: one of the five built-in rules, or a caller-supplied one. */
  datatype Rule =
    | RoasOneToTwo
    | HealthyCtrWeakConversion
    | HighFrequencyFatigue
    | CtrDrop
    | SpendZeroPurchases
    | Custom(customCode: string, customLabel: string, appliesTo: MetricSummary -> bool, build: MetricSummary -> Insight)

  function Code(rule: Rule): string {
    match rule
    case RoasOneToTwo => "roas_1_2"
    case HealthyCtrWeakConversion => "ctr_healthy_low_conversion"
    case HighFrequencyFatigue => "frequency_fatigue"
    case CtrDrop => "ctr_drop_vs_prev7"
    case SpendZeroPurchases => "spend_no_purchases"
    case Custom(code, _, _, _) => code
  }

  function Label(rule: Rule): string {
    match rule
    case RoasOneToTwo => "ROAS between 1 and 2"
    case HealthyCtrWeakConversion => "CTR healthy, conversion weak"
    case HighFrequencyFatigue => "High frequency risk"
    case CtrDrop => "CTR dropped vs previous 7 days"
    case SpendZeroPurchases => "Spend with no purchases"
    case Custom(_, text, _, _) => text
  }

  /** The built-in rules, in registration order. */
  const BUILTIN_RULES: seq<Rule> := [RoasOneToTwo, HealthyCtrWeakConversion, HighFrequencyFatigue, CtrDrop, SpendZeroPurchases]

  const AVG_ROAS: AggKey := Avg(Field(Roas))
  const AVG_CTR: AggKey := Avg(Field(Ctr))
  const AVG_ATC_TO_PURCHASE: AggKey := Avg(AtcToPurchase)
  const AVG_FREQUENCY: AggKey := Avg(Field(Frequency))
  const AVG_CTR_DELTA: AggKey := Avg(CtrDelta)

  /** The spend rule's test on one row: truthy spend above 50, and purchases falsy or zero. */
  predicate Offends(row: Row) {
    var spend := Lookup(row, Field(Spend));
    var purchases := Lookup(row, Field(Purchases));
    ValueTruthy(spend) && Exceeds50(spend) && (!ValueTruthy(purchases) || EqualsZero(purchases))
  }

  /** `_SpendZeroPurchasesRule.applies`: some row offends. */
  predicate SomeRowOffends(rows: seq<Row>) {
    exists i :: 0 <= i < |rows| && Offends(rows[i])
  }

  /** `applies` of each rule. */
  predicate Applies(rule: Rule, summary: MetricSummary) {
    var aggregates := summary.aggregates;
    match rule
    case RoasOneToTwo =>
      var roas := AggGet(aggregates, AVG_ROAS);
      roas.Some? && 1.0 <= roas.value <= 2.0
    case HealthyCtrWeakConversion =>
      var ctr := AggGet(aggregates, AVG_CTR);
      var atcPurchase := AggGet(aggregates, AVG_ATC_TO_PURCHASE);
      FloatTruthy(ctr) && ctr.value >= 0.015 && (atcPurchase.None? || atcPurchase.value < 0.2)
    case HighFrequencyFatigue =>
      var frequency := AggGet(aggregates, AVG_FREQUENCY);
      FloatTruthy(frequency) && frequency.value >= 3.5
    case CtrDrop =>
      var delta := AggGet(aggregates, AVG_CTR_DELTA);
      delta.Some? && delta.value < -0.1
    case SpendZeroPurchases => SomeRowOffends(summary.perRow)
    case Custom(_, _, appliesTo, _) => appliesTo(summary)
  }

  /** One offenders entry: spend and purchases defaulting to 0.0, names to None. */
  function OffenderOf(row: Row): Offender {
    Offender(
      if Field(Spend) in row then row[Field(Spend)] else Float(Finite(0.0)),
      if Field(Purchases) in row then row[Field(Purchases)] else Float(Finite(0.0)),
      Lookup(row, Field(CampaignName)),
      Lookup(row, Field(AdName)))
  }

  /** The offenders comprehension: one entry per offending row, in row order. */
  function OffendersOf(rows: seq<Row>): seq<Offender> {
    if rows == [] then []
    else (if Offends(rows[0]) then [OffenderOf(rows[0])] else []) + OffendersOf(rows[1..])
  }

  const ROAS_ACTION := "Test 2–3 new hooks/thumbnails; rotate in new ad creative; cap frequency if over-performing"
  const ROAS_RATIONALE := "ROAS is in the modest 1–2 band, signalling room for incremental lift from creative testing and fatigue mitigation"
  const CTR_ACTION := "Audit landing and checkout flows; ensure offer-message match and remove friction"
  const CTR_RATIONALE := "Traffic is engaged (strong CTR) but shoppers are not completing purchases after adding to cart"
  const FREQUENCY_ACTION := "Rotate fresh creative or expand audiences to lower frequency"
  const FREQUENCY_RATIONALE := "Average frequency is high, indicating audience saturation and performance decay risk"
  const DROP_ACTION := "Investigate creative fatigue and audience overlap; run rapid creative refresh"
  const DROP_RATIONALE := "CTR declined more than 10% week-over-week, signalling creative engagement issues"
  const SPEND_ACTION := "Pause or fix underperforming ads with spend but zero purchases; audit funnel quickly"
  const SPEND_RATIONALE := "Detected ads spending meaningful budget without returning purchases"

  /** `build_insight` of each rule. */
  function BuildInsight(rule: Rule, summary: MetricSummary): Insight {
    var aggregates := summary.aggregates;
    match rule
    case RoasOneToTwo =>
      Insight(Code(rule), Label(rule), Opportunity, ROAS_ACTION, ROAS_RATIONALE,
              map[AggName(AVG_ROAS) := Number(AggGetOr(aggregates, AVG_ROAS))])
    case HealthyCtrWeakConversion =>
      Insight(Code(rule), Label(rule), Warning, CTR_ACTION, CTR_RATIONALE,
              map[AggName(AVG_CTR) := Number(AggGetOr(aggregates, AVG_CTR)),
                  AggName(AVG_ATC_TO_PURCHASE) := Number(AggGetOr(aggregates, AVG_ATC_TO_PURCHASE))])
    case HighFrequencyFatigue =>
      Insight(Code(rule), Label(rule), Warning, FREQUENCY_ACTION, FREQUENCY_RATIONALE,
              map[AggName(AVG_FREQUENCY) := Number(AggGetOr(aggregates, AVG_FREQUENCY))])
    case CtrDrop =>
      Insight(Code(rule), Label(rule), Critical, DROP_ACTION, DROP_RATIONALE,
              map[AggName(AVG_CTR_DELTA) := Number(AggGetOr(aggregates, AVG_CTR_DELTA))])
    case SpendZeroPurchases =>
      Insight(Code(rule), Label(rule), Critical, SPEND_ACTION, SPEND_RATIONALE,
              map["offenders" := Offenders(OffendersOf(summary.perRow))])
    case Custom(_, _, _, build) => build(summary)
  }

  /** The findings of `rules`: one per applying rule, in rule order. */
  function Findings(rules: seq<Rule>, summary: MetricSummary): seq<Insight> {
    if rules == [] then []
    else (if Applies(rules[0], summary) then [BuildInsight(rules[0], summary)] else []) + Findings(rules[1..], summary)
  }

  // ---------------------------------------------------------------------------
  // The agent
  // ---------------------------------------------------------------------------

  /** `_SpendZeroPurchasesRule.applies`: scans the rows and stops at the first offender. */
  method ScanForOffender(rows: seq<Row>) returns (found: bool)
    ensures found <==> SomeRowOffends(rows)
    ensures found ==> |OffendersOf(rows)| > 0
  {
    var i := 0;
    while i < |rows|
      invariant 0 <= i <= |rows|
      invariant forall k :: 0 <= k < i ==> !Offends(rows[k])
    {
      if Offends(rows[i]) {
        OffendersNonEmptyIff(rows);
        return true;
      }
      i := i + 1;
    }
    return false;
  }

  /** `rule.applies(ctx)`. */
  method RuleApplies(rule: Rule, summary: MetricSummary) returns (applies: bool)
    ensures applies == Applies(rule, summary)
  {
    if rule.SpendZeroPurchases? {
      applies := ScanForOffender(summary.perRow);
    } else {
      applies := Applies(rule, summary);
    }
  }

  /** The list an agent registers: the caller's extra rules, if any, then the built-ins. */
  function RegisteredRules(extraRules: Option<seq<Rule>>): (rules: seq<Rule>)
    ensures extraRules.None? ==> rules == BUILTIN_RULES
    ensures extraRules.Some? ==> |rules| == |extraRules.value| + |BUILTIN_RULES| && rules[..|extraRules.value|] == extraRules.value
    ensures rules[|rules| - |BUILTIN_RULES|..] == BUILTIN_RULES
  {
    (if extraRules.Some? then extraRules.value else []) + BUILTIN_RULES
  }

  /** `RuleBasedInsightAgent`: an ordered list of rules run against a metric summary. */
  class RuleBasedInsightAgent {
    var rules: seq<Rule>

    /** Registers the extra rules, when given, ahead of the five built-in rules. */
    constructor(extraRules: Option<seq<Rule>>)
      ensures rules == RegisteredRules(extraRules)
    {
      rules := RegisteredRules(extraRules);
    }

    /** `__call__`: one finding per applying rule, in registration order. */
    method Run(summary: MetricSummary) returns (insights: seq<Insight>)
      ensures insights == Findings(rules, summary)
    {
      insights := [];
      var i := 0;
      while i < |rules|
        invariant 0 <= i <= |rules|
        invariant insights == Findings(rules[..i], summary)
      {
        var rule := rules[i];
        FindingsAppend(rules[..i], [rule], summary);
        assert rules[..i + 1] == rules[..i] + [rule];
        var applies := RuleApplies(rule, summary);
        if applies {
          insights := insights + [BuildInsight(rule, summary)];
        }
        i := i + 1;
      }
      assert rules[..|rules|] == rules;
    }
  }

  // ---------------------------------------------------------------------------
  // Properties
  // ---------------------------------------------------------------------------

  /** Findings of consecutive rule lists are consecutive: extra rules report before the built-ins. */
  lemma {:induction false} FindingsAppend(a: seq<Rule>, b: seq<Rule>, summary: MetricSummary)
    ensures Findings(a + b, summary) == Findings(a, summary) + Findings(b, summary)
  {
    if a == [] {
      assert a + b == b;
    } else {
      FindingsAppend(a[1..], b, summary);
      assert (a + b)[1..] == a[1..] + b;
    }
  }

  /** Every finding is built by a listed rule that applies, and there is at most one per rule. */
  lemma {:induction false} FindingsSound(rules: seq<Rule>, summary: MetricSummary)
    ensures |Findings(rules, summary)| <= |rules|
    ensures forall f :: f in Findings(rules, summary) ==>
      exists rule :: rule in rules && Applies(rule, summary) && f == BuildInsight(rule, summary)
  {
    if rules != [] {
      FindingsSound(rules[1..], summary);
      forall f | f in Findings(rules, summary)
        ensures exists rule :: rule in rules && Applies(rule, summary) && f == BuildInsight(rule, summary)
      {
        if f !in Findings(rules[1..], summary) {
          assert Applies(rules[0], summary) && f == BuildInsight(rules[0], summary);
        } else {
          var rule :| rule in rules[1..] && Applies(rule, summary) && f == BuildInsight(rule, summary);
          assert rule in rules;
        }
      }
    }
  }

  /** Every listed rule that applies contributes its finding. */
  lemma {:induction false} FindingsComplete(rules: seq<Rule>, summary: MetricSummary, rule: Rule)
    requires rule in rules && Applies(rule, summary)
    ensures BuildInsight(rule, summary) in Findings(rules, summary)
  {
    if rules[0] != rule {
      FindingsComplete(rules[1..], summary, rule);
    }
  }

  /** The built-in rules have distinct codes, and each finding they build carries its rule's code. */
  lemma BuiltinCodes()
    ensures forall a, b :: 0 <= a < b < |BUILTIN_RULES| ==> Code(BUILTIN_RULES[a]) != Code(BUILTIN_RULES[b])
    ensures forall rule, summary :: rule in BUILTIN_RULES ==> BuildInsight(rule, summary).code == Code(rule)
  {
  }

  /** The evidence keys the rules report under. */
  lemma EvidenceNames()
    ensures AggName(AVG_ROAS) == "avg_roas"
    ensures AggName(AVG_CTR) == "avg_ctr"
    ensures AggName(AVG_ATC_TO_PURCHASE) == "avg_atc_to_purchase"
    ensures AggName(AVG_FREQUENCY) == "avg_frequency"
    ensures AggName(AVG_CTR_DELTA) == "avg_ctr_delta"
  {
    assert "avg_" + "roas" == "avg_roas";
    assert "avg_" + "ctr" == "avg_ctr";
    assert "avg_" + "atc_to_purchase" == "avg_atc_to_purchase";
    assert "avg_" + "frequency" == "avg_frequency";
    assert "avg_" + "ctr_delta" == "avg_ctr_delta";
  }

  /** `roas_1_2` fires exactly when the mean ROAS is present and within [1, 2]; it reports that mean. */
  lemma RoasRule(summary: MetricSummary)
    ensures Applies(RoasOneToTwo, summary) <==>
      AVG_ROAS in summary.aggregates && 1.0 <= summary.aggregates[AVG_ROAS] <= 2.0
    ensures var finding := BuildInsight(RoasOneToTwo, summary);
      finding.severity == Opportunity &&
      (Applies(RoasOneToTwo, summary) ==> finding.metrics == map["avg_roas" := Number(summary.aggregates[AVG_ROAS])])
  {
    EvidenceNames();
  }

  /**
   * `ctr_healthy_low_conversion` fires exactly when the mean CTR is present and at least 0.015
   * and the mean add-to-cart-to-purchase rate is absent or below 0.2; a missing rate is reported as 0.0.
   */
  lemma HealthyCtrRule(summary: MetricSummary)
    ensures var aggregates := summary.aggregates;
      Applies(HealthyCtrWeakConversion, summary) <==>
        AVG_CTR in aggregates && aggregates[AVG_CTR] >= 0.015 &&
        (AVG_ATC_TO_PURCHASE !in aggregates || aggregates[AVG_ATC_TO_PURCHASE] < 0.2)
    ensures var finding := BuildInsight(HealthyCtrWeakConversion, summary);
      finding.severity == Warning &&
      finding.metrics == map[
        "avg_ctr" := Number(if AVG_CTR in summary.aggregates then summary.aggregates[AVG_CTR] else 0.0),
        "avg_atc_to_purchase" := Number(if AVG_ATC_TO_PURCHASE in summary.aggregates
                                        then summary.aggregates[AVG_ATC_TO_PURCHASE] else 0.0)]
  {
    EvidenceNames();
  }

  /** `frequency_fatigue` fires exactly when the mean frequency is present and at least 3.5. */
  lemma FrequencyRule(summary: MetricSummary)
    ensures Applies(HighFrequencyFatigue, summary) <==>
      AVG_FREQUENCY in summary.aggregates && summary.aggregates[AVG_FREQUENCY] >= 3.5
    ensures var finding := BuildInsight(HighFrequencyFatigue, summary);
      finding.severity == Warning &&
      (Applies(HighFrequencyFatigue, summary) ==>
         finding.metrics == map["avg_frequency" := Number(summary.aggregates[AVG_FREQUENCY])])
  {
    EvidenceNames();
  }

  /** `ctr_drop_vs_prev7` fires exactly when the mean CTR change is present and below -0.1. */
  lemma CtrDropRule(summary: MetricSummary)
    ensures Applies(CtrDrop, summary) <==>
      AVG_CTR_DELTA in summary.aggregates && summary.aggregates[AVG_CTR_DELTA] < -0.1
    ensures var finding := BuildInsight(CtrDrop, summary);
      finding.severity == Critical &&
      (Applies(CtrDrop, summary) ==>
         finding.metrics == map["avg_ctr_delta" := Number(summary.aggregates[AVG_CTR_DELTA])])
  {
    EvidenceNames();
  }

  /**
   * On a derived row (spend and purchases absent or floats) a row offends exactly when its
   * spend is above 50, infinity included, and its purchases are absent or zero; NaN purchases
   * are truthy and do not count as zero.
   */
  lemma OffendsOnFloats(row: Row)
    requires var spend := Lookup(row, Field(Spend)); spend.Null? || spend.Float?
    requires var purchases := Lookup(row, Field(Purchases)); purchases.Null? || purchases.Float?
    ensures var spend := Lookup(row, Field(Spend));
      var purchases := Lookup(row, Field(Purchases));
      Offends(row) <==>
        spend.Float? && (spend.x == PosInf || (spend.x.Finite? && spend.x.r > 50.0)) &&
        (purchases.Null? || purchases == Float(Finite(0.0)))
  {
  }

  /** A list or object under `purchases` counts as no purchases exactly when it is empty. */
  lemma OffendsOnCollectionPurchases(row: Row)
    requires Lookup(row, Field(Spend)).Float?
    requires Lookup(row, Field(Purchases)).Other?
    ensures var spend := Lookup(row, Field(Spend)).x;
      Offends(row) <==>
        (spend == PosInf || (spend.Finite? && spend.r > 50.0)) && Lookup(row, Field(Purchases)).empty
  {
  }

  /** The offenders list is empty exactly when no row offends. */
  lemma {:induction false} OffendersNonEmptyIff(rows: seq<Row>)
    ensures |OffendersOf(rows)| > 0 <==> SomeRowOffends(rows)
  {
    if rows != [] {
      OffendersNonEmptyIff(rows[1..]);
      if SomeRowOffends(rows[1..]) {
        var i :| 0 <= i < |rows[1..]| && Offends(rows[1..][i]);
        assert Offends(rows[i + 1]);
      }
      if SomeRowOffends(rows) && !Offends(rows[0]) {
        var i :| 0 <= i < |rows| && Offends(rows[i]);
        assert rows[1..][i - 1] == rows[i];
      }
    }
  }

  /** The offenders of a row followed by more rows: that row's entry, if it offends, then theirs. */
  lemma OffendersCons(r: Row, rest: seq<Row>)
    ensures OffendersOf([r] + rest) == (if Offends(r) then [OffenderOf(r)] else []) + OffendersOf(rest)
  {
    assert ([r] + rest)[0] == r && ([r] + rest)[1..] == rest;
  }

  /** Offenders of consecutive rows are consecutive: the list follows row order. */
  lemma {:induction false} OffendersAppend(a: seq<Row>, b: seq<Row>)
    ensures OffendersOf(a + b) == OffendersOf(a) + OffendersOf(b)
  {
    if a == [] {
      assert a + b == b;
    } else {
      var t := a[1..];
      assert a == [a[0]] + t && a + b == [a[0]] + (t + b);
      OffendersAppend(t, b);
      OffendersCons(a[0], t);
      OffendersCons(a[0], t + b);
    }
  }

  /** Every offender comes from a row whose spend is truthy and above 50. */
  lemma {:induction false} OffendersSpendAbove50(rows: seq<Row>)
    ensures forall o :: o in OffendersOf(rows) ==> ValueTruthy(o.spend) && Exceeds50(o.spend)
  {
    if rows != [] {
      OffendersSpendAbove50(rows[1..]);
    }
  }

  /** `spend_no_purchases` fires exactly when some row offends; its offenders list is then non-empty. */
  lemma SpendRule(summary: MetricSummary)
    ensures Applies(SpendZeroPurchases, summary) <==> |OffendersOf(summary.perRow)| > 0
    ensures BuildInsight(SpendZeroPurchases, summary).severity == Critical
    ensures BuildInsight(SpendZeroPurchases, summary).metrics == map["offenders" := Offenders(OffendersOf(summary.perRow))]
  {
    OffendersNonEmptyIff(summary.perRow);
  }

  // ---------------------------------------------------------------------------
  // The two-row campaign example
  // ---------------------------------------------------------------------------

  /**
   * Two rows whose ROAS (1.5, 0.9), click-through rate (2.5, 2.0) and add-to-cart-to-purchase
   * rate (0.15, 0.0) are those of the two-ad example give mean ROAS 1.2 and mean CTR 2.25 with
   * mean rate 0.075, so `roas_1_2` and `ctr_healthy_low_conversion` both fire.
   */
  lemma ExampleRowsFire(r1: Row, r2: Row, summary: MetricSummary)
    requires Lookup(r1, Field(Roas)) == Float(Finite(1.5)) && Lookup(r2, Field(Roas)) == Float(Finite(0.9))
    requires Lookup(r1, Field(Ctr)) == Float(Finite(2.5)) && Lookup(r2, Field(Ctr)) == Float(Finite(2.0))
    requires Lookup(r1, AtcToPurchase) == Float(Finite(0.15)) && Lookup(r2, AtcToPurchase) == Float(Finite(0.0))
    requires summary.aggregates == Aggregates([r1, r2])
    ensures Applies(RoasOneToTwo, summary) && Applies(HealthyCtrWeakConversion, summary)
  {
    MeanOfTwo(r1, r2, Field(Roas), 1.5, 0.9);
    MeanOfTwo(r1, r2, Field(Ctr), 2.5, 2.0);
    MeanOfTwo(r1, r2, AtcToPurchase, 0.15, 0.0);
  }

  /** Over two rows with finite values `a` and `b` of an averaged metric, the mean is `(a + b) / 2`. */
  lemma MeanOfTwo(r1: Row, r2: Row, metric: Metric, a: real, b: real)
    requires metric in AVG_METRICS
    requires Lookup(r1, metric) == Float(Finite(a)) && Lookup(r2, metric) == Float(Finite(b))
    ensures Avg(metric) in Aggregates([r1, r2]) && Aggregates([r1, r2])[Avg(metric)] == (a + b) / 2.0
  {
    var vs := ValidValues([r1, r2], metric);
    ValuesOfTwo(r1, r2, metric, a, b);
    SumOfTwo(a, b);
    assert Sum(vs) / |vs| as real == (a + b) / 2.0;
    AggregatesAt([r1, r2], Avg(metric));
  }

  lemma ValuesOfTwo(r1: Row, r2: Row, metric: Metric, a: real, b: real)
    requires Lookup(r1, metric) == Float(Finite(a)) && Lookup(r2, metric) == Float(Finite(b))
    ensures ValidValues([r1, r2], metric) == [a, b]
  {
    ValidValuesSnoc([], r1, metric);
    ValidValuesSnoc([r1], r2, metric);
    assert [] + [r1] == [r1] && [r1] + [r2] == [r1, r2];
  }

  lemma SumOfTwo(a: real, b: real)
    ensures Sum([a, b]) == a + b
  {
    SumAppend([a], [b]);
    assert [a][..0] == [] && [b][..0] == [] && [a] + [b] == [a, b];
  }

  /**
   * A record whose mapped ROAS, CTR, purchases and adds to cart are finite derives a row with
   * those rates; with the example's cells (1.5/2.5/3/20 and 0.9/2.0/0/5) the two derived rows
   * meet the premises of `ExampleRowsFire`.
   */
  lemma DerivedCells(rec: Record, m: ColumnMapping, roas: real, ctr: real, purchases: real, adds: real)
    requires MappedValue(rec, m, Roas) == Float(Finite(roas)) && MappedValue(rec, m, Ctr) == Float(Finite(ctr))
    requires MappedValue(rec, m, Purchases) == Float(Finite(purchases)) && MappedValue(rec, m, AddsToCart) == Float(Finite(adds))
    requires adds != 0.0
    ensures var row := DeriveRow(rec, m);
      Lookup(row, Field(Roas)) == Float(Finite(roas)) && Lookup(row, Field(Ctr)) == Float(Finite(ctr)) &&
      Lookup(row, AtcToPurchase) == Float(Finite(purchases / adds))
  {
    DerivedField(rec, m, Roas);
    DerivedCtrCell(rec, m, ctr);
    DerivedAtcCell(rec, m, purchases, adds);
  }

  lemma DerivedCtrCell(rec: Record, m: ColumnMapping, ctr: real)
    requires MappedValue(rec, m, Ctr) == Float(Finite(ctr))
    ensures Lookup(DeriveRow(rec, m), Field(Ctr)) == Float(Finite(ctr))
  {
    DerivedCtr(rec, m);
    var c := Float(Finite(ctr));
    assert IsValidNumber(c) && AsReal(c) == ctr;
  }

  lemma DerivedAtcCell(rec: Record, m: ColumnMapping, purchases: real, adds: real)
    requires MappedValue(rec, m, Purchases) == Float(Finite(purchases)) && MappedValue(rec, m, AddsToCart) == Float(Finite(adds))
    requires adds != 0.0
    ensures Lookup(DeriveRow(rec, m), AtcToPurchase) == Float(Finite(purchases / adds))
  {
    DerivedAtcToPurchase(rec, m);
    var p, a := Float(Finite(purchases)), Float(Finite(adds));
    assert IsValidNumber(p) && AsReal(p) == purchases;
    assert IsValidNumber(a) && AsReal(a) == adds;
    assert ComputeRatio(p, a) == Finite(purchases / adds);
  }
}
