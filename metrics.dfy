/**
 * The metric calculator: coercion of raw cells to floats, the derived ratios of each row
 * (click-through rate, add-to-cart-to-purchase rate, change in click-through rate), and the
 * totals and means over all rows.
 *
 * Python floats are modelled as exact reals with explicit infinities and NaN; rounding and
 * overflow are not modelled.
 */
module Metrics {
  import opened Wrappers
  import opened Schemas
  import opened PyText
  import opened FloatParsing

  // ---------------------------------------------------------------------------
  // Row keys
  // ---------------------------------------------------------------------------

  /** A key of a derived row: a canonical metric, or one of the two ratios the calculator adds. */
  datatype Metric = Field(c: Canonical) | AtcToPurchase | CtrDelta

  /** The dictionary key a metric is stored under; the click-through rate keeps the name `ctr`. */
  function MetricName(k: Metric): string {
    match k
    case Field(c) => Name(c)
    case AtcToPurchase => "atc_to_purchase"
    case CtrDelta => "ctr_delta"
  }

  /** One derived row: the metrics dict of one record. */
  type Row = map<Metric, Value>

  /** `metrics.get(key)`: the stored value, or None when the key is absent. */
  function Lookup(row: Row, k: Metric): Value {
    if k in row then row[k] else Null
  }

  /** `_numeric_fields()`: the canonical metrics whose cells are coerced to floats. */
  const NUMERIC_FIELDS: set<Canonical> :=
    {Spend, Impressions, Clicks, Ctr, Frequency, Roas, Purchases, PurchaseValue, AddsToCart, Ctr7d, CtrPrev7}

  // ---------------------------------------------------------------------------
  // Coercion
  // ---------------------------------------------------------------------------

  /** `float(value)`: the float a value converts to, or None where Python raises TypeError or ValueError. */
  function AsFloat(v: Value): Option<Num> {
    match v
    case Null => None
    case Bool(b) => Some(Finite(if b then 1.0 else 0.0))
    case Int(i) => Some(Finite(i as real))
    case Float(x) => Some(x)
    case Str(s) => ParseFloat(s)
    case Other(_) => None
  }

  /** `_is_valid_number`: not None, convertible by `float`, and finite. */
  predicate IsValidNumber(v: Value) {
    v != Null && AsFloat(v).Some? && AsFloat(v).value.Finite?
  }

  /** The real a valid number converts to. */
  function AsReal(v: Value): real
    requires IsValidNumber(v)
  {
    AsFloat(v).value.r
  }

  /**
   * `_to_float`: booleans and numbers pass through `float`, strings are parsed once every
   * `%` is removed, and anything else, or a string that does not parse, is NaN.
   */
  function ToFloat(v: Value): Num {
    match v
    case Bool(b) => Finite(if b then 1.0 else 0.0)
    case Int(i) => Finite(i as real)
    case Float(x) => x
    case Str(s) =>
      (match ParseFloat(RemoveChar(s, '%'))
       case Some(x) => x
       case None => NaN)
    case Null => NaN
    case Other(_) => NaN
  }

  /** Coercion and the validity check agree: a coerced cell is valid exactly when it is finite, and keeps a valid number's value. */
  lemma CoercionAgreesWithValidity(v: Value)
    ensures IsValidNumber(Float(ToFloat(v))) <==> ToFloat(v).Finite?
    ensures !v.Str? && IsValidNumber(v) ==> ToFloat(v) == Finite(AsReal(v))
    ensures !v.Str? && !IsValidNumber(v) ==> !ToFloat(v).Finite?
    ensures v.Str? && '%' !in v.s ==> (IsValidNumber(v) <==> ToFloat(v).Finite?)
    ensures v.Str? && '%' !in v.s && IsValidNumber(v) ==> ToFloat(v) == Finite(AsReal(v))
  {
    if v.Str? {
      RemoveCharFacts(v.s, '%');
    }
  }

  /** A string is read as the percentage figure it shows, not as a fraction: `str(n) + "%"` coerces to `n`. */
  lemma PercentStringKeepsFigure(n: nat)
    ensures ToFloat(Str(ShowNat(n) + "%")) == Finite(n as real)
  {
    var s := ShowNat(n);
    RemoveCharAppend(s, "%", '%');
    AllDigitsHasNoMarkers(s);
    assert '%' !in s by {
      forall i | 0 <= i < |s| ensures s[i] != '%' {
        assert IsDigit(s[i]);
      }
    }
    RemoveCharFacts(s, '%');
    assert RemoveChar("%", '%') == [];
    assert s + [] == s;
    ParseShowNat(n);
  }

  /** A trailing percent sign is dropped before parsing. */
  lemma TrailingPercentDropped(s: string)
    requires '%' !in s
    ensures ToFloat(Str(s + "%")) == match ParseFloat(s) case Some(x) => x case None => NaN
  {
    RemoveCharAppend(s, "%", '%');
    RemoveCharFacts(s, '%');
    assert RemoveChar("%", '%') == [];
    assert s + [] == s;
  }

  /** The sample figure: `"2.5%"` coerces to 2.5. */
  lemma PercentSample()
    ensures ToFloat(Str("2.5%")) == Finite(2.5)
  {
    assert "2.5%" == "2.5" + "%";
    TrailingPercentDropped("2.5");
    ParseDecimalSample();
  }

  lemma ParseDecimalSample()
    ensures ParseFloat("2.5") == Some(Finite(2.5))
  {
    var s := "2.5";
    assert Trimmed(s);
    StripUnchanged(s);
    assert Lower(s) == s;
    assert IndexOfExponent(s) == 3;
    assert s[..3] == s;
    assert IndexOf(s, '.') == 1;
    assert s[..1] == "2" && s[2..] == "5";
    assert DigitsValue("2") == 2 && DigitsValue("5") == 5;
  }

  // ---------------------------------------------------------------------------
  // Derived ratios
  // ---------------------------------------------------------------------------

  /** `_compute_ratio`: numerator over denominator, NaN when either is invalid or the denominator is zero. */
  function ComputeRatio(numerator: Value, denominator: Value): (r: Num)
    ensures r.Finite? || r == NaN
    ensures r.Finite? <==> IsValidNumber(numerator) && IsValidNumber(denominator) && AsReal(denominator) != 0.0
    ensures IsValidNumber(numerator) && IsValidNumber(denominator) && AsReal(denominator) != 0.0 ==>
      r == Finite(AsReal(numerator) / AsReal(denominator))
  {
    if !IsValidNumber(numerator) || !IsValidNumber(denominator) then NaN
    else if AsReal(denominator) == 0.0 then NaN
    else Finite(AsReal(numerator) / AsReal(denominator))
  }

  /** `_compute_ctr`: the supplied click-through rate when valid, otherwise clicks over impressions. */
  function ComputeCtr(row: Row): (r: Num)
    ensures r.Finite? || r == NaN
    ensures IsValidNumber(Lookup(row, Field(Ctr))) ==> r == Finite(AsReal(Lookup(row, Field(Ctr))))
    ensures !IsValidNumber(Lookup(row, Field(Ctr))) ==>
      (r.Finite? <==> IsValidNumber(Lookup(row, Field(Clicks))) && IsValidNumber(Lookup(row, Field(Impressions)))
                      && AsReal(Lookup(row, Field(Impressions))) != 0.0)
    ensures !IsValidNumber(Lookup(row, Field(Ctr))) ==> r == ComputeRatio(Lookup(row, Field(Clicks)), Lookup(row, Field(Impressions)))
  {
    var value := Lookup(row, Field(Ctr));
    if IsValidNumber(value) then Finite(AsReal(value))
    else
      // the same checks and quotient as `_compute_ratio`, written out again in the source
      ComputeRatio(Lookup(row, Field(Clicks)), Lookup(row, Field(Impressions)))
  }

  /** The current click-through rate `_compute_ctr_delta` compares: the 7-day rate when valid, else the row's rate. */
  function CurrentCtr(row: Row): Value {
    var recent := Lookup(row, Field(Ctr7d));
    if IsValidNumber(recent) then recent else Lookup(row, Field(Ctr))
  }

  /** The tail of `_compute_ctr_delta`: the change from `previous` to `current`, relative to `previous`. */
  function RelativeChange(current: Value, previous: Value): (r: Num)
    ensures r.Finite? || r == NaN
    ensures r.Finite? <==> IsValidNumber(current) && IsValidNumber(previous) && AsReal(previous) != 0.0
    ensures IsValidNumber(current) && IsValidNumber(previous) && AsReal(previous) != 0.0 ==>
      r == Finite((AsReal(current) - AsReal(previous)) / AsReal(previous))
  {
    if !IsValidNumber(current) || !IsValidNumber(previous) then NaN
    else
      var prevValue := AsReal(previous);
      if prevValue == 0.0 then NaN
      else Finite((AsReal(current) - prevValue) / prevValue)
  }

  /** `_compute_ctr_delta`: the relative change from the previous 7-day rate to the current rate. */
  function ComputeCtrDelta(row: Row): (r: Num)
    ensures var current := CurrentCtr(row);
      var previous := Lookup(row, Field(CtrPrev7));
      (r.Finite? <==> IsValidNumber(current) && IsValidNumber(previous) && AsReal(previous) != 0.0) &&
      (IsValidNumber(current) && IsValidNumber(previous) && AsReal(previous) != 0.0 ==>
         r == Finite((AsReal(current) - AsReal(previous)) / AsReal(previous)))
  {
    RelativeChange(CurrentCtr(row), Lookup(row, Field(CtrPrev7)))
  }

  // ---------------------------------------------------------------------------
  // Per-row derivation
  // ---------------------------------------------------------------------------

  /** The stored form of a cell of metric `c`: coerced to a float when numeric, unchanged otherwise. */
  function Coerce(c: Canonical, v: Value): Value {
    if c in NUMERIC_FIELDS then Float(ToFloat(v)) else v
  }

  /** The metrics dict after the copy loop has visited `cs`: each visited metric with a header holds its coerced cell. */
  function CopyFields(record: Record, m: ColumnMapping, cs: seq<Canonical>): Row {
    if cs == [] then map[]
    else
      var row := CopyFields(record, m, cs[..|cs| - 1]);
      var c := cs[|cs| - 1];
      match Resolve(m, c)
      case None => row
      case Some(column) => row[Field(c) := Coerce(c, Get(record, column))]
  }

  /** The copy loop stores exactly the visited metrics that have a header, each with its own coerced cell. */
  lemma {:induction false} CopyFieldsContents(record: Record, m: ColumnMapping, cs: seq<Canonical>)
    ensures forall k :: k in CopyFields(record, m, cs) <==> k.Field? && k.c in cs && Resolve(m, k.c).Some?
    ensures forall c :: Field(c) in CopyFields(record, m, cs) ==>
      CopyFields(record, m, cs)[Field(c)] == Coerce(c, Get(record, Resolve(m, c).value))
  {
    if cs != [] {
      var init := cs[..|cs| - 1];
      CopyFieldsContents(record, m, init);
      assert forall c :: c in cs <==> c in init || c == cs[|cs| - 1];
    }
  }

  /** The value `metrics.get(c)` sees after the copy loop: the coerced cell of a mapped metric, None otherwise. */
  function MappedValue(record: Record, m: ColumnMapping, c: Canonical): Value {
    if Truthy(Resolve(m, c)) then Coerce(c, Get(record, Resolve(m, c).value)) else Null
  }

  /** The metrics dict once the copy loop is done: `ctr`, `atc_to_purchase` and `ctr_delta` stored in that order. */
  function AddDerived(copied: Row): Row {
    var withCtr := copied[Field(Ctr) := Float(ComputeCtr(copied))];
    var withAtc := withCtr[AtcToPurchase := Float(ComputeRatio(Lookup(withCtr, Field(Purchases)), Lookup(withCtr, Field(AddsToCart))))];
    withAtc[CtrDelta := Float(ComputeCtrDelta(withAtc))]
  }

  /** The metrics dict of one record: the copied metrics, completed with the derived values. */
  function DeriveRow(record: Record, m: ColumnMapping): Row {
    AddDerived(CopyFields(record, m, AvailableMetrics(m)))
  }

  /** Completing a row adds the three derived keys and leaves every other key as it was. */
  lemma AddDerivedKeys(copied: Row)
    ensures forall k :: k in AddDerived(copied) <==> k in copied || k == Field(Ctr) || k == AtcToPurchase || k == CtrDelta
    ensures forall k :: k in copied && k != Field(Ctr) && k != AtcToPurchase && k != CtrDelta ==> AddDerived(copied)[k] == copied[k]
  {
  }

  /** After a copy loop over exactly the mapped metrics, the keys are those metrics and each reads as its mapped value. */
  lemma CopiedReadsMapped(record: Record, m: ColumnMapping, cs: seq<Canonical>)
    requires forall c :: c in cs <==> Truthy(Resolve(m, c))
    ensures forall k :: k in CopyFields(record, m, cs) <==> k.Field? && Truthy(Resolve(m, k.c))
    ensures forall c :: Lookup(CopyFields(record, m, cs), Field(c)) == MappedValue(record, m, c)
  {
    CopyFieldsContents(record, m, cs);
  }

  /** A derived row holds `ctr`, `atc_to_purchase`, `ctr_delta` and exactly the mapped canonical metrics. */
  lemma DerivedRowKeys(record: Record, m: ColumnMapping)
    ensures forall k :: k in DeriveRow(record, m) <==>
      k == Field(Ctr) || k == AtcToPurchase || k == CtrDelta || (k.Field? && Truthy(Resolve(m, k.c)))
  {
    var copied := CopyFields(record, m, AvailableMetrics(m));
    CopiedReadsMapped(record, m, AvailableMetrics(m));
    AddDerivedKeys(copied);
  }

  /** Every metric other than `ctr` reads in a derived row as its mapped value: coerced cell or None. */
  lemma DerivedField(record: Record, m: ColumnMapping, c: Canonical)
    requires c != Ctr
    ensures Lookup(DeriveRow(record, m), Field(c)) == MappedValue(record, m, c)
  {
    CopiedFieldSurvives(record, m, AvailableMetrics(m), c);
  }

  /** `DerivedField` for a copy loop over any sequence holding exactly the mapped metrics. */
  lemma CopiedFieldSurvives(record: Record, m: ColumnMapping, cs: seq<Canonical>, c: Canonical)
    requires forall c :: c in cs <==> Truthy(Resolve(m, c))
    requires c != Ctr
    ensures Lookup(AddDerived(CopyFields(record, m, cs)), Field(c)) == MappedValue(record, m, c)
  {
    CopiedReadsMappedAt(record, m, cs, c);
  }

  /** A row's click-through rate is the supplied one when valid, otherwise clicks over impressions. */
  lemma DerivedCtr(record: Record, m: ColumnMapping)
    ensures var ctr := MappedValue(record, m, Ctr);
      DeriveRow(record, m)[Field(Ctr)] ==
        Float(if IsValidNumber(ctr) then Finite(AsReal(ctr))
              else ComputeRatio(MappedValue(record, m, Clicks), MappedValue(record, m, Impressions)))
  {
    CopiedReadsMapped(record, m, AvailableMetrics(m));
  }

  /** A row's `atc_to_purchase` is purchases over adds to cart. */
  lemma DerivedAtcToPurchase(record: Record, m: ColumnMapping)
    ensures DeriveRow(record, m)[AtcToPurchase] ==
      Float(ComputeRatio(MappedValue(record, m, Purchases), MappedValue(record, m, AddsToCart)))
  {
    CopiedReadsMapped(record, m, AvailableMetrics(m));
  }

  /**
   * A row's `ctr_delta` is the relative change from the previous 7-day rate to the 7-day
   * rate, or to the row's derived rate when the 7-day rate is not valid; NaN when either is
   * not valid or the previous rate is zero.
   */
  lemma DerivedCtrDelta(record: Record, m: ColumnMapping)
    ensures var row := DeriveRow(record, m);
      var recent := MappedValue(record, m, Ctr7d);
      row[CtrDelta] == Float(RelativeChange(if IsValidNumber(recent) then recent else row[Field(Ctr)],
                                            MappedValue(record, m, CtrPrev7)))
  {
    MappedCtrDelta(record, m, AvailableMetrics(m));
  }

  /** `DerivedCtrDelta` for a copy loop over any sequence holding exactly the mapped metrics. */
  lemma MappedCtrDelta(record: Record, m: ColumnMapping, cs: seq<Canonical>)
    requires forall c :: c in cs <==> Truthy(Resolve(m, c))
    ensures var row := AddDerived(CopyFields(record, m, cs));
      var recent := MappedValue(record, m, Ctr7d);
      row[CtrDelta] == Float(RelativeChange(if IsValidNumber(recent) then recent else row[Field(Ctr)],
                                            MappedValue(record, m, CtrPrev7)))
  {
    CopiedReadsMappedAt(record, m, cs, Ctr7d);
    CopiedReadsMappedAt(record, m, cs, CtrPrev7);
    AddDerivedCtrDelta(CopyFields(record, m, cs));
  }

  /** Completing a row stores as `ctr_delta` the change from the previous 7-day rate to the current rate. */
  lemma AddDerivedCtrDelta(copied: Row)
    ensures var row := AddDerived(copied);
      var recent := Lookup(copied, Field(Ctr7d));
      row[CtrDelta] == Float(RelativeChange(if IsValidNumber(recent) then recent else row[Field(Ctr)],
                                            Lookup(copied, Field(CtrPrev7))))
  {
    var withCtr := copied[Field(Ctr) := Float(ComputeCtr(copied))];
    var withAtc := withCtr[AtcToPurchase := Float(ComputeRatio(Lookup(withCtr, Field(Purchases)), Lookup(withCtr, Field(AddsToCart))))];
    assert Lookup(withAtc, Field(Ctr7d)) == Lookup(copied, Field(Ctr7d));
    assert Lookup(withAtc, Field(CtrPrev7)) == Lookup(copied, Field(CtrPrev7));
  }

  /** `CopiedReadsMapped` for one metric. */
  lemma CopiedReadsMappedAt(record: Record, m: ColumnMapping, cs: seq<Canonical>, c: Canonical)
    requires forall c :: c in cs <==> Truthy(Resolve(m, c))
    ensures Lookup(CopyFields(record, m, cs), Field(c)) == MappedValue(record, m, c)
  {
    CopiedReadsMapped(record, m, cs);
  }

  /** The copy loop of `_derive_row_metrics` over one record: each available metric's cell, coerced when numeric. */
  method CopyRecord(record: Record, m: ColumnMapping, available: seq<Canonical>) returns (metrics: Row)
    ensures metrics == CopyFields(record, m, available)
  {
    metrics := map[];
    var j := 0;
    while j < |available|
      invariant 0 <= j <= |available|
      invariant metrics == CopyFields(record, m, available[..j])
    {
      var canonical := available[j];
      assert available[..j + 1][..j] == available[..j];
      ghost var next := CopyFields(record, m, available[..j + 1]);
      var column := Resolve(m, canonical);
      if column.None? {
        assert next == metrics;
        j := j + 1;
        continue;
      }
      var value := Get(record, column.value);
      assert next == metrics[Field(canonical) := Coerce(canonical, value)];
      if canonical in NUMERIC_FIELDS {
        metrics := metrics[Field(canonical) := Float(ToFloat(value))];
      } else {
        metrics := metrics[Field(canonical) := value];
      }
      j := j + 1;
    }
    assert available[..|available|] == available;
  }

  /** The three derived stores of `_derive_row_metrics`, in the source's order. */
  method CompleteRow(copied: Row) returns (metrics: Row)
    ensures metrics == AddDerived(copied)
  {
    metrics := copied;
    metrics := metrics[Field(Ctr) := Float(ComputeCtr(metrics))];
    metrics := metrics[AtcToPurchase := Float(ComputeRatio(Lookup(metrics, Field(Purchases)), Lookup(metrics, Field(AddsToCart))))];
    metrics := metrics[CtrDelta := Float(ComputeCtrDelta(metrics))];
  }

  /**
   * `_derive_row_metrics`: one metrics dict per record, in record order, each filled by the
   * copy loop over the available metrics and completed with the three derived values.
   */
  method DeriveRowMetrics(records: seq<Record>, m: ColumnMapping) returns (rows: seq<Row>)
    ensures |rows| == |records|
    ensures forall i :: 0 <= i < |records| ==> rows[i] == DeriveRow(records[i], m)
  {
    rows := [];
    var available := AvailableMetrics(m);
    var i := 0;
    while i < |records|
      invariant 0 <= i <= |records| && |rows| == i
      invariant forall k :: 0 <= k < i ==> rows[k] == DeriveRow(records[k], m)
    {
      var copied := CopyRecord(records[i], m, available);
      var metrics := CompleteRow(copied);
      rows := rows + [metrics];
      i := i + 1;
    }
  }


  // ---------------------------------------------------------------------------
  // Aggregation
  // ---------------------------------------------------------------------------

  /** A key of the aggregates dict: `total_<metric>` or `avg_<metric>`. */
  datatype AggKey = Total(m: Metric) | Avg(m: Metric)

  /** The dictionary key an aggregate is stored under. */
  function AggName(k: AggKey): string {
    match k
    case Total(x) => "total_" + MetricName(x)
    case Avg(x) => "avg_" + MetricName(x)
  }

  /** The metrics `_aggregate` sums, in the order it visits them. */
  const TOTAL_METRICS: seq<Metric> :=
    [Field(Spend), Field(Impressions), Field(Clicks), Field(Purchases), Field(PurchaseValue), Field(AddsToCart)]

  /** The metrics `_aggregate` averages, in the order it visits them. */
  const AVG_METRICS: seq<Metric> :=
    [Field(Ctr), Field(Frequency), Field(Roas), AtcToPurchase, Field(Ctr7d), Field(CtrPrev7), CtrDelta]

  /** Every key `_aggregate` may produce. */
  const AGG_KEYS: set<AggKey> := (set x | x in TOTAL_METRICS :: Total(x)) + (set x | x in AVG_METRICS :: Avg(x))

  /** A total of a summed metric or a mean of an averaged one. */
  predicate IsAggKey(k: AggKey) {
    (k.Total? && k.m in TOTAL_METRICS) || (k.Avg? && k.m in AVG_METRICS)
  }

  lemma AggKeysAre()
    ensures forall k :: k in AGG_KEYS <==> IsAggKey(k)
  {
  }

  /** No metric is listed twice. */
  predicate Distinct(ms: seq<Metric>) {
    forall a, b :: 0 <= a < b < |ms| ==> ms[a] != ms[b]
  }

  /** The valid values of `metric` across `rows`, in row order, as reals. */
  function ValidValues(rows: seq<Row>, metric: Metric): (vs: seq<real>)
    ensures |vs| <= |rows|
  {
    if rows == [] then []
    else
      var init := ValidValues(rows[..|rows| - 1], metric);
      var value := Lookup(rows[|rows| - 1], metric);
      if IsValidNumber(value) then init + [AsReal(value)] else init
  }

  /** Left-to-right sum, starting from `0.0` as `sums.get(key, 0.0)` does. */
  function Sum(xs: seq<real>): real {
    if xs == [] then 0.0 else Sum(xs[..|xs| - 1]) + xs[|xs| - 1]
  }

  /**
   * What `_aggregate` returns: for each listed metric with at least one valid value, the
   * total of its valid values, or their mean.
   */
  function Aggregates(rows: seq<Row>): map<AggKey, real> {
    map k | k in AGG_KEYS && |ValidValues(rows, k.m)| > 0 ::
      var vs := ValidValues(rows, k.m);
      if k.Total? then Sum(vs) else Sum(vs) / |vs| as real
  }

  /** `sums[key]` holds the running total of the valid values of `key`'s metric over `rows`, present once one exists. */
  predicate Accumulated(sums: map<AggKey, real>, key: AggKey, rows: seq<Row>) {
    (key in sums <==> |ValidValues(rows, key.m)| > 0) &&
    (key in sums ==> sums[key] == Sum(ValidValues(rows, key.m)))
  }

  /** `counts[key]` holds the number of valid values of `key`'s metric over `rows`, present once one exists. */
  predicate Counted(counts: map<AggKey, nat>, key: AggKey, rows: seq<Row>) {
    (key in counts <==> |ValidValues(rows, key.m)| > 0) &&
    (key in counts ==> counts[key] == |ValidValues(rows, key.m)|)
  }

  /** Splitting off the last element of `b` regroups `a + b`; stated for any element type, so the proof sees no rows. */
  lemma SplitLast<T>(a: seq<T>, b: seq<T>)
    requires |b| > 0
    ensures a + b == (a + b[..|b| - 1]) + [b[|b| - 1]] && b == b[..|b| - 1] + [b[|b| - 1]]
  {
  }

  /** A present value as a one-element list, an absent one as the empty list. */
  function OptSeq(x: Option<real>): seq<real> {
    match x
    case Some(r) => [r]
    case None => []
  }

  /** A row's value of `metric` as a one-element list when it is valid, empty otherwise. */
  function ValidOf(row: Row, metric: Metric): seq<real> {
    OptSeq(ValidReal(Lookup(row, metric)))
  }

  /** One more row adds its value of `metric` to the end of the valid values when it is valid. */
  lemma ValidValuesSnoc(rows: seq<Row>, row: Row, metric: Metric)
    ensures var value := Lookup(row, metric);
      ValidValues(rows + [row], metric) ==
        if IsValidNumber(value) then ValidValues(rows, metric) + [AsReal(value)] else ValidValues(rows, metric)
  {
    assert (rows + [row])[..|rows|] == rows;
  }

  /** The same step as one concatenation: the new row contributes `ValidOf` its value. */
  lemma ValidValuesSnocOf(rows: seq<Row>, row: Row, metric: Metric)
    ensures ValidValues(rows + [row], metric) == ValidValues(rows, metric) + ValidOf(row, metric)
  {
    ValidValuesSnoc(rows, row, metric);
  }

  /** `float(value)` when `_is_valid_number(value)` holds; None when the store is skipped. */
  function ValidReal(value: Value): Option<real> {
    if IsValidNumber(value) then Some(AsReal(value)) else None
  }

  /** `sums[key] = sums.get(key, 0.0) + x` for a valid value `x`; nothing for None. */
  function AddOpt(sums: map<AggKey, real>, key: AggKey, x: Option<real>): map<AggKey, real> {
    match x
    case None => sums
    case Some(r) => sums[key := (if key in sums then sums[key] else 0.0) + r]
  }

  /** `counts[key] = counts.get(key, 0) + 1` for a valid value; nothing for None. */
  function CountOpt(counts: map<AggKey, nat>, key: AggKey, x: Option<real>): map<AggKey, nat> {
    match x
    case None => counts
    case Some(_) => counts[key := (if key in counts then counts[key] else 0) + 1]
  }

  /** `sums[key] = sums.get(key, 0.0) + float(value)` when `value` is valid; nothing otherwise. */
  function AddValue(sums: map<AggKey, real>, key: AggKey, value: Value): map<AggKey, real> {
    AddOpt(sums, key, ValidReal(value))
  }

  /** `counts[key] = counts.get(key, 0) + 1` when `value` is valid; nothing otherwise. */
  function AddCount(counts: map<AggKey, nat>, key: AggKey, value: Value): map<AggKey, nat> {
    CountOpt(counts, key, ValidReal(value))
  }

  /** The first inner loop of `_aggregate` run over `metrics` for one row: each valid value added to its total. */
  function AddTotals(sums: map<AggKey, real>, row: Row, metrics: seq<Metric>): map<AggKey, real> {
    if metrics == [] then sums
    else
      var last := metrics[|metrics| - 1];
      AddValue(AddTotals(sums, row, metrics[..|metrics| - 1]), Total(last), Lookup(row, last))
  }

  /** The sums the second inner loop of `_aggregate` leaves after `metrics`: each valid value added to its average's sum. */
  function AddAverages(sums: map<AggKey, real>, row: Row, metrics: seq<Metric>): map<AggKey, real> {
    if metrics == [] then sums
    else
      var last := metrics[|metrics| - 1];
      AddValue(AddAverages(sums, row, metrics[..|metrics| - 1]), Avg(last), Lookup(row, last))
  }

  /** The counts the second inner loop of `_aggregate` leaves after `metrics`: each valid value counted. */
  function AddCounts(counts: map<AggKey, nat>, row: Row, metrics: seq<Metric>): map<AggKey, nat> {
    if metrics == [] then counts
    else
      var last := metrics[|metrics| - 1];
      AddCount(AddCounts(counts, row, metrics[..|metrics| - 1]), Avg(last), Lookup(row, last))
  }

  /** Adding a row's valid value to a running total keeps the total accurate for the longer prefix. */
  lemma AccumulateStep(sums: map<AggKey, real>, key: AggKey, rows: seq<Row>, row: Row)
    requires Accumulated(sums, key, rows)
    ensures Accumulated(AddValue(sums, key, Lookup(row, key.m)), key, rows + [row])
  {
    ValidValuesSnocOf(rows, row, key.m);
    AddOptSums(sums, key, ValidValues(rows, key.m), ValidReal(Lookup(row, key.m)));
  }

  /** Counting a row's valid value keeps the count accurate for the longer prefix. */
  lemma CountStep(counts: map<AggKey, nat>, key: AggKey, rows: seq<Row>, row: Row)
    requires Counted(counts, key, rows)
    ensures Counted(AddCount(counts, key, Lookup(row, key.m)), key, rows + [row])
  {
    ValidValuesSnocOf(rows, row, key.m);
    CountOptCounts(counts, key, ValidValues(rows, key.m), ValidReal(Lookup(row, key.m)));
  }

  /** The running-total store keeps `sums[key]` the sum of the values seen, present once there is one. */
  lemma AddOptSums(sums: map<AggKey, real>, key: AggKey, vs: seq<real>, x: Option<real>)
    requires (key in sums <==> |vs| > 0) && (key in sums ==> sums[key] == Sum(vs))
    ensures var updated := AddOpt(sums, key, x);
      (key in updated <==> |vs + OptSeq(x)| > 0) && (key in updated ==> updated[key] == Sum(vs + OptSeq(x)))
  {
    if x.Some? {
      assert (vs + [x.value])[..|vs|] == vs;
    } else {
      assert vs + [] == vs;
    }
  }

  /** The count store keeps `counts[key]` the number of values seen, present once there is one. */
  lemma CountOptCounts(counts: map<AggKey, nat>, key: AggKey, vs: seq<real>, x: Option<real>)
    requires (key in counts <==> |vs| > 0) && (key in counts ==> counts[key] == |vs|)
    ensures var updated := CountOpt(counts, key, x);
      (key in updated <==> |vs + OptSeq(x)| > 0) && (key in updated ==> updated[key] == |vs + OptSeq(x)|)
  {
  }

  /** Adding to one key leaves every other key's running total as it was. */
  lemma AccumulatedFrame(sums: map<AggKey, real>, key: AggKey, value: Value, other: AggKey, rows: seq<Row>)
    requires other != key
    ensures Accumulated(AddValue(sums, key, value), other, rows) == Accumulated(sums, other, rows)
  {
  }

  /** Counting one key leaves every other key's count as it was. */
  lemma CountedFrame(counts: map<AggKey, nat>, key: AggKey, value: Value, other: AggKey, rows: seq<Row>)
    requires other != key
    ensures Counted(AddCount(counts, key, value), other, rows) == Counted(counts, other, rows)
  {
  }

  /** Two sum maps that agree on `key` are equally accurate for it. */
  lemma AccumulatedAgree(a: map<AggKey, real>, b: map<AggKey, real>, key: AggKey, rows: seq<Row>)
    requires (key in a <==> key in b) && (key in a ==> a[key] == b[key])
    ensures Accumulated(a, key, rows) == Accumulated(b, key, rows)
  {
  }

  /** Two count maps that agree on `key` are equally accurate for it. */
  lemma CountedAgree(a: map<AggKey, nat>, b: map<AggKey, nat>, key: AggKey, rows: seq<Row>)
    requires (key in a <==> key in b) && (key in a ==> a[key] == b[key])
    ensures Counted(a, key, rows) == Counted(b, key, rows)
  {
  }

  /**
   * Running the totals loop over distinct metrics brings each of their totals from `rows` to
   * `rows + [row]`, and touches no other key.
   */
  lemma {:induction false} TotalsAccumulate(sums: map<AggKey, real>, row: Row, metrics: seq<Metric>, rows: seq<Row>)
    requires Distinct(metrics)
    requires forall t :: 0 <= t < |metrics| ==> Accumulated(sums, Total(metrics[t]), rows)
    ensures forall t :: 0 <= t < |metrics| ==> Accumulated(AddTotals(sums, row, metrics), Total(metrics[t]), rows + [row])
    ensures forall k: AggKey :: !(k.Total? && k.m in metrics) ==>
      (k in AddTotals(sums, row, metrics) <==> k in sums) && (k in sums ==> AddTotals(sums, row, metrics)[k] == sums[k])
  {
    if metrics != [] {
      var n := |metrics| - 1;
      var init, last := metrics[..n], metrics[n];
      var before := AddTotals(sums, row, init);
      var key := Total(last);
      assert metrics == init + [last];
      TotalsAccumulate(sums, row, init, rows);
      AccumulatedAgree(before, sums, key, rows);
      AccumulateStep(before, key, rows, row);
      forall t | 0 <= t < n
        ensures Accumulated(AddTotals(sums, row, metrics), Total(metrics[t]), rows + [row])
      {
        assert metrics[t] == init[t] != last;
        AccumulatedFrame(before, key, Lookup(row, last), Total(metrics[t]), rows + [row]);
      }
    }
  }

  /**
   * Running the averages loop over distinct metrics brings each of their sums from `rows` to
   * `rows + [row]`, and touches no other key.
   */
  lemma {:induction false} AveragesAccumulate(sums: map<AggKey, real>, row: Row, metrics: seq<Metric>, rows: seq<Row>)
    requires Distinct(metrics)
    requires forall t :: 0 <= t < |metrics| ==> Accumulated(sums, Avg(metrics[t]), rows)
    ensures forall t :: 0 <= t < |metrics| ==> Accumulated(AddAverages(sums, row, metrics), Avg(metrics[t]), rows + [row])
    ensures forall k: AggKey :: !(k.Avg? && k.m in metrics) ==>
      (k in AddAverages(sums, row, metrics) <==> k in sums) && (k in sums ==> AddAverages(sums, row, metrics)[k] == sums[k])
  {
    if metrics != [] {
      var n := |metrics| - 1;
      var init, last := metrics[..n], metrics[n];
      var before := AddAverages(sums, row, init);
      var key := Avg(last);
      assert metrics == init + [last];
      AveragesAccumulate(sums, row, init, rows);
      AccumulatedAgree(before, sums, key, rows);
      AccumulateStep(before, key, rows, row);
      forall t | 0 <= t < n
        ensures Accumulated(AddAverages(sums, row, metrics), Avg(metrics[t]), rows + [row])
      {
        assert metrics[t] == init[t] != last;
        AccumulatedFrame(before, key, Lookup(row, last), Avg(metrics[t]), rows + [row]);
      }
    }
  }

  /**
   * Running the averages loop over distinct metrics brings each of their counts from `rows`
   * to `rows + [row]`, and touches no other key.
   */
  lemma {:induction false} CountsCount(counts: map<AggKey, nat>, row: Row, metrics: seq<Metric>, rows: seq<Row>)
    requires Distinct(metrics)
    requires forall t :: 0 <= t < |metrics| ==> Counted(counts, Avg(metrics[t]), rows)
    ensures forall t :: 0 <= t < |metrics| ==> Counted(AddCounts(counts, row, metrics), Avg(metrics[t]), rows + [row])
    ensures forall k: AggKey :: !(k.Avg? && k.m in metrics) ==>
      (k in AddCounts(counts, row, metrics) <==> k in counts) && (k in counts ==> AddCounts(counts, row, metrics)[k] == counts[k])
  {
    if metrics != [] {
      var n := |metrics| - 1;
      var init, last := metrics[..n], metrics[n];
      var before := AddCounts(counts, row, init);
      var key := Avg(last);
      assert metrics == init + [last];
      CountsCount(counts, row, init, rows);
      CountedAgree(before, counts, key, rows);
      CountStep(before, key, rows, row);
      forall t | 0 <= t < n
        ensures Counted(AddCounts(counts, row, metrics), Avg(metrics[t]), rows + [row])
      {
        assert metrics[t] == init[t] != last;
        CountedFrame(before, key, Lookup(row, last), Avg(metrics[t]), rows + [row]);
      }
    }
  }

  /**
   * The guarded store of the totals loop, given `ValidReal` of the cell: a valid value is
   * added to `sums.get(key, 0.0)`, None is skipped.
   */
  method AddIfValid(sums: map<AggKey, real>, key: AggKey, x: Option<real>) returns (updated: map<AggKey, real>)
    ensures updated == AddOpt(sums, key, x)
  {
    updated := sums;
    if x.Some? {
      updated := updated[key := (if key in updated then updated[key] else 0.0) + x.value];
    }
  }

  /**
   * The guarded stores of the averages loop, given `ValidReal` of the cell: a valid value is
   * added to its sum and counted, None is skipped.
   */
  method AddAndCountIfValid(sums: map<AggKey, real>, counts: map<AggKey, nat>, key: AggKey, x: Option<real>)
    returns (updated: map<AggKey, real>, updatedCounts: map<AggKey, nat>)
    ensures updated == AddOpt(sums, key, x)
    ensures updatedCounts == CountOpt(counts, key, x)
  {
    updated, updatedCounts := sums, counts;
    if x.Some? {
      updated := updated[key := (if key in updated then updated[key] else 0.0) + x.value];
      updatedCounts := updatedCounts[key := (if key in updatedCounts then updatedCounts[key] else 0) + 1];
    }
  }

  /**
   * The first inner loop of `_aggregate` over one row: each listed metric's total now
   * covers `row` as well; the averages are untouched and no other key appears.
   */
  method AccumulateTotals(sums: map<AggKey, real>, row: Row, metrics: seq<Metric>, ghost rows: seq<Row>)
    returns (updated: map<AggKey, real>)
    requires Distinct(metrics)
    requires forall t :: 0 <= t < |metrics| ==> Accumulated(sums, Total(metrics[t]), rows)
    ensures forall t :: 0 <= t < |metrics| ==> Accumulated(updated, Total(metrics[t]), rows + [row])
    ensures forall k :: k in updated ==> k in sums || (k.Total? && k.m in metrics)
    ensures forall k: AggKey :: k.Avg? ==> (k in updated <==> k in sums) && (k in sums ==> updated[k] == sums[k])
  {
    updated := sums;
    var j := 0;
    while j < |metrics|
      invariant j <= |metrics|
      invariant updated == AddTotals(sums, row, metrics[..j])
    {
      var metric := metrics[j];
      var key := Total(metric);
      var value := Lookup(row, metric);
      assert metrics[..j + 1][..j] == metrics[..j];
      assert AddTotals(sums, row, metrics[..j + 1]) == AddValue(updated, key, value);
      updated := AddIfValid(updated, key, ValidReal(value));
      j := j + 1;
    }
    assert metrics[..j] == metrics;
    TotalsAccumulate(sums, row, metrics, rows);
  }

  /**
   * The second inner loop of `_aggregate` over one row: each listed metric's running sum
   * and count now cover `row` as well; the totals are untouched and no other key appears.
   */
  method AccumulateAverages(sums: map<AggKey, real>, counts: map<AggKey, nat>, row: Row, metrics: seq<Metric>, ghost rows: seq<Row>)
    returns (updated: map<AggKey, real>, updatedCounts: map<AggKey, nat>)
    requires Distinct(metrics)
    requires forall t :: 0 <= t < |metrics| ==> Accumulated(sums, Avg(metrics[t]), rows) && Counted(counts, Avg(metrics[t]), rows)
    ensures forall t :: 0 <= t < |metrics| ==>
      Accumulated(updated, Avg(metrics[t]), rows + [row]) && Counted(updatedCounts, Avg(metrics[t]), rows + [row])
    ensures forall k :: k in updated ==> k in sums || (k.Avg? && k.m in metrics)
    ensures forall k :: k in updatedCounts ==> k in counts || (k.Avg? && k.m in metrics)
    ensures forall k: AggKey :: k.Total? ==> (k in updated <==> k in sums) && (k in sums ==> updated[k] == sums[k])
  {
    updated, updatedCounts := sums, counts;
    var j := 0;
    while j < |metrics|
      invariant j <= |metrics|
      invariant updated == AddAverages(sums, row, metrics[..j])
      invariant updatedCounts == AddCounts(counts, row, metrics[..j])
    {
      var metric := metrics[j];
      var key := Avg(metric);
      var value := Lookup(row, metric);
      assert metrics[..j + 1][..j] == metrics[..j];
      assert AddAverages(sums, row, metrics[..j + 1]) == AddValue(updated, key, value);
      assert AddCounts(counts, row, metrics[..j + 1]) == AddCount(updatedCounts, key, value);
      updated, updatedCounts := AddAndCountIfValid(updated, updatedCounts, key, ValidReal(value));
      j := j + 1;
    }
    assert metrics[..j] == metrics;
    AveragesAccumulate(sums, row, metrics, rows);
    CountsCount(counts, row, metrics, rows);
  }

  /** The state of `sums` and `counts` once `_aggregate` has visited `rows` and before it divides. */
  ghost predicate Summed(sums: map<AggKey, real>, counts: map<AggKey, nat>, rows: seq<Row>) {
    (forall k :: IsAggKey(k) ==> Accumulated(sums, k, rows)) &&
    (forall k :: IsAggKey(k) && k.Avg? ==> Counted(counts, k, rows)) &&
    (forall k :: k in sums ==> IsAggKey(k)) &&
    (forall k :: k in counts ==> IsAggKey(k) && k.Avg?)
  }

  /** Which keys the aggregates hold, and what each holds. */
  lemma AggregatesAt(rows: seq<Row>, k: AggKey)
    ensures k in Aggregates(rows) <==> IsAggKey(k) && |ValidValues(rows, k.m)| > 0
    ensures k in Aggregates(rows) ==>
      var vs := ValidValues(rows, k.m);
      Aggregates(rows)[k] == if k.Total? then Sum(vs) else Sum(vs) / |vs| as real
  {
    AggKeysAre();
  }

  /** Dividing every counted sum by its count turns the summed state into the aggregates. */
  lemma DividedSumsAreAggregates(totals: map<AggKey, real>, counts: map<AggKey, nat>, rows: seq<Row>, result: map<AggKey, real>)
    requires Summed(totals, counts, rows)
    requires result.Keys == totals.Keys
    requires forall k :: k in result ==>
      result[k] == if k in counts && counts[k] != 0 then totals[k] / counts[k] as real else totals[k]
    ensures result == Aggregates(rows)
  {
    forall k ensures k in result <==> k in Aggregates(rows) {
      AggregatesAt(rows, k);
    }
    forall k | k in result ensures result[k] == Aggregates(rows)[k] {
      AggregatesAt(rows, k);
    }
  }

  /** Neither metric list of `_aggregate` repeats a metric. */
  lemma AggregateListsDistinct()
    ensures Distinct(TOTAL_METRICS) && Distinct(AVG_METRICS)
  {
  }

  /** In a summed state every summed metric's total is accurate, as the totals loop needs. */
  lemma SummedTotalsAccurate(sums: map<AggKey, real>, counts: map<AggKey, nat>, rows: seq<Row>)
    requires Summed(sums, counts, rows)
    ensures forall t :: 0 <= t < |TOTAL_METRICS| ==> Accumulated(sums, Total(TOTAL_METRICS[t]), rows)
  {
    forall t | 0 <= t < |TOTAL_METRICS| ensures Accumulated(sums, Total(TOTAL_METRICS[t]), rows) {
      assert IsAggKey(Total(TOTAL_METRICS[t]));
    }
  }

  /** After the totals loop, which leaves the averages alone, every averaged metric's sum and count are accurate. */
  lemma SummedAveragesAccurate(sums: map<AggKey, real>, counts: map<AggKey, nat>, totalled: map<AggKey, real>, rows: seq<Row>)
    requires Summed(sums, counts, rows)
    requires forall k: AggKey :: k.Avg? ==> (k in totalled <==> k in sums) && (k in sums ==> totalled[k] == sums[k])
    ensures forall t :: 0 <= t < |AVG_METRICS| ==>
      Accumulated(totalled, Avg(AVG_METRICS[t]), rows) && Counted(counts, Avg(AVG_METRICS[t]), rows)
  {
    forall t | 0 <= t < |AVG_METRICS|
      ensures Accumulated(totalled, Avg(AVG_METRICS[t]), rows) && Counted(counts, Avg(AVG_METRICS[t]), rows)
    {
      var k := Avg(AVG_METRICS[t]);
      assert IsAggKey(k);
      AccumulatedAgree(totalled, sums, k, rows);
    }
  }

  /** Both inner loops over `row` take a summed state for `rows` to one for `rows + [row]`. */
  lemma SummedAfterRow(sums: map<AggKey, real>, counts: map<AggKey, nat>, totalled: map<AggKey, real>,
                       updated: map<AggKey, real>, updatedCounts: map<AggKey, nat>, row: Row, rows: seq<Row>)
    requires Summed(sums, counts, rows)
    requires forall t :: 0 <= t < |TOTAL_METRICS| ==> Accumulated(totalled, Total(TOTAL_METRICS[t]), rows + [row])
    requires forall k :: k in totalled ==> k in sums || (k.Total? && k.m in TOTAL_METRICS)
    requires forall t :: 0 <= t < |AVG_METRICS| ==>
      Accumulated(updated, Avg(AVG_METRICS[t]), rows + [row]) && Counted(updatedCounts, Avg(AVG_METRICS[t]), rows + [row])
    requires forall k :: k in updated ==> k in totalled || (k.Avg? && k.m in AVG_METRICS)
    requires forall k :: k in updatedCounts ==> k in counts || (k.Avg? && k.m in AVG_METRICS)
    requires forall k: AggKey :: k.Total? ==> (k in updated <==> k in totalled) && (k in totalled ==> updated[k] == totalled[k])
    ensures Summed(updated, updatedCounts, rows + [row])
  {
    forall k | IsAggKey(k) ensures Accumulated(updated, k, rows + [row]) {
      if k.Total? {
        var t :| 0 <= t < |TOTAL_METRICS| && TOTAL_METRICS[t] == k.m;
        AccumulatedAgree(updated, totalled, k, rows + [row]);
      } else {
        var t :| 0 <= t < |AVG_METRICS| && AVG_METRICS[t] == k.m;
      }
    }
    forall k | IsAggKey(k) && k.Avg? ensures Counted(updatedCounts, k, rows + [row]) {
      var t :| 0 <= t < |AVG_METRICS| && AVG_METRICS[t] == k.m;
    }
  }

  /** The body of `_aggregate`'s row loop: both inner loops over one more row. */
  method AggregateRow(sums: map<AggKey, real>, counts: map<AggKey, nat>, row: Row, ghost rows: seq<Row>)
    returns (updated: map<AggKey, real>, updatedCounts: map<AggKey, nat>)
    requires Summed(sums, counts, rows)
    ensures Summed(updated, updatedCounts, rows + [row])
  {
    AggregateListsDistinct();
    SummedTotalsAccurate(sums, counts, rows);
    var totalled := AccumulateTotals(sums, row, TOTAL_METRICS, rows);
    SummedAveragesAccurate(sums, counts, totalled, rows);
    updated, updatedCounts := AccumulateAverages(totalled, counts, row, AVG_METRICS, rows);
    SummedAfterRow(sums, counts, totalled, updated, updatedCounts, row, rows);
  }

  /** The division loop of `_aggregate`: every sum with a non-zero count becomes the mean. */
  method DivideByCounts(sums: map<AggKey, real>, counts: map<AggKey, nat>) returns (result: map<AggKey, real>)
    requires counts.Keys <= sums.Keys
    ensures result.Keys == sums.Keys
    ensures forall k :: k in result ==>
      result[k] == if k in counts && counts[k] != 0 then sums[k] / counts[k] as real else sums[k]
  {
    result := sums;
    var pending := counts.Keys;
    while pending != {}
      invariant pending <= counts.Keys
      invariant result.Keys == sums.Keys
      invariant forall k :: k in result ==>
        result[k] == if k in counts && k !in pending && counts[k] != 0 then sums[k] / counts[k] as real else sums[k]
      decreases |pending|
    {
      var key :| key in pending;
      if counts[key] != 0 {
        result := result[key := result[key] / counts[key] as real];
      }
      pending := pending - {key};
    }
  }

  /**
   * `_aggregate`: sums the valid values of each summed metric and of each averaged metric
   * over all rows, counting the latter, then divides each counted sum by its count.
   */
  method Aggregate(rows: seq<Row>) returns (aggregates: map<AggKey, real>)
    ensures aggregates == Aggregates(rows)
  {
    var sums: map<AggKey, real> := map[];
    var counts: map<AggKey, nat> := map[];
    var i := 0;
    while i < |rows|
      invariant 0 <= i <= |rows|
      invariant Summed(sums, counts, rows[..i])
    {
      assert rows[..i + 1] == rows[..i] + [rows[i]];
      sums, counts := AggregateRow(sums, counts, rows[i], rows[..i]);
      i := i + 1;
    }
    assert rows[..|rows|] == rows;
    aggregates := DivideByCounts(sums, counts);
    DividedSumsAreAggregates(sums, counts, rows, aggregates);
  }

  // ---------------------------------------------------------------------------
  // Properties of the aggregates
  // ---------------------------------------------------------------------------

  /** A row holding a valid value of `metric` gives the metric at least one valid value. */
  lemma {:induction false} ValidValueCounts(rows: seq<Row>, metric: Metric, i: nat)
    requires i < |rows| && IsValidNumber(Lookup(rows[i], metric))
    ensures |ValidValues(rows, metric)| > 0
  {
    var n := |rows| - 1;
    assert rows == rows[..n] + [rows[n]];
    ValidValuesSnocOf(rows[..n], rows[n], metric);
    if i < n {
      ValidValueCounts(rows[..n], metric, i);
    }
  }

  /** A metric with a valid value has a row holding one. */
  lemma {:induction false} ValidValueWitness(rows: seq<Row>, metric: Metric) returns (i: nat)
    requires |ValidValues(rows, metric)| > 0
    ensures i < |rows| && IsValidNumber(Lookup(rows[i], metric))
  {
    var n := |rows| - 1;
    ValidValuesSnoc(rows[..n], rows[n], metric);
    assert rows == rows[..n] + [rows[n]];
    if IsValidNumber(Lookup(rows[n], metric)) {
      i := n;
    } else {
      i := ValidValueWitness(rows[..n], metric);
      assert rows[..n][i] == rows[i];
    }
  }

  /** A metric has valid values exactly when some row holds a valid value of it. */
  lemma ValidValuesNonEmpty(rows: seq<Row>, metric: Metric)
    ensures |ValidValues(rows, metric)| > 0 <==> exists i :: 0 <= i < |rows| && IsValidNumber(Lookup(rows[i], metric))
  {
    if |ValidValues(rows, metric)| > 0 {
      var i := ValidValueWitness(rows, metric);
    }
    if exists i :: 0 <= i < |rows| && IsValidNumber(Lookup(rows[i], metric)) {
      var i :| 0 <= i < |rows| && IsValidNumber(Lookup(rows[i], metric));
      ValidValueCounts(rows, metric, i);
    }
  }

  /** An aggregate is present exactly for a listed metric that is valid in at least one row. */
  lemma AggregatePresentIff(rows: seq<Row>, k: AggKey)
    ensures k in Aggregates(rows) <==>
      IsAggKey(k) && exists i :: 0 <= i < |rows| && IsValidNumber(Lookup(rows[i], k.m))
  {
    AggregatesAt(rows, k);
    ValidValuesNonEmpty(rows, k.m);
  }

  /** The valid values of a concatenation are those of each part, in order. */
  lemma {:induction false} ValidValuesAppend(a: seq<Row>, b: seq<Row>, metric: Metric)
    ensures ValidValues(a + b, metric) == ValidValues(a, metric) + ValidValues(b, metric)
  {
    if b == [] {
      assert a + b == a;
    } else {
      var n := |b| - 1;
      var init, last := b[..n], b[n];
      ValidValuesAppend(a, init, metric);
      SplitLast(a, b);
      ValidValuesSnocOf(a + init, last, metric);
      ValidValuesSnocOf(init, last, metric);
    }
  }

  /** A left-to-right sum splits over concatenation. */
  lemma {:induction false} SumAppend(xs: seq<real>, ys: seq<real>)
    ensures Sum(xs + ys) == Sum(xs) + Sum(ys)
  {
    if ys == [] {
      assert xs + ys == xs;
    } else {
      SumAppend(xs, ys[..|ys| - 1]);
      assert (xs + ys)[..|xs + ys| - 1] == xs + ys[..|ys| - 1];
    }
  }

  /** The total under `key`, zero when the aggregates leave it out. */
  function TotalOf(aggregates: map<AggKey, real>, key: AggKey): real {
    if key in aggregates then aggregates[key] else 0.0
  }

  /** Totals are additive: the total over two batches of rows is the sum of their totals. */
  lemma TotalsAdd(a: seq<Row>, b: seq<Row>, metric: Metric)
    requires metric in TOTAL_METRICS
    ensures TotalOf(Aggregates(a + b), Total(metric)) ==
      TotalOf(Aggregates(a), Total(metric)) + TotalOf(Aggregates(b), Total(metric))
  {
    AggregatesAt(a + b, Total(metric));
    AggregatesAt(a, Total(metric));
    AggregatesAt(b, Total(metric));
    ValidValuesAppend(a, b, metric);
    SumAppend(ValidValues(a, metric), ValidValues(b, metric));
  }

  /** Taking out the element at `j` leaves the rest of the list, one copy of that element fewer. */
  lemma RemoveAt<T>(s: seq<T>, j: nat)
    requires j < |s|
    ensures s == (s[..j] + [s[j]]) + s[j + 1..]
    ensures multiset(s[..j] + s[j + 1..]) == multiset(s) - multiset{s[j]}
  {
    assert s == (s[..j] + [s[j]]) + s[j + 1..];
  }

  /** A sum does not depend on the order of its terms. */
  lemma {:induction false} SumPermutation(xs: seq<real>, ys: seq<real>)
    requires multiset(xs) == multiset(ys)
    ensures Sum(xs) == Sum(ys)
    decreases |xs|
  {
    if xs == [] {
      assert |ys| == |multiset(ys)| == 0;
    } else {
      var n := |xs| - 1;
      assert xs == xs[..n] + [xs[n]];
      assert xs[n] in multiset(ys);
      var j :| 0 <= j < |ys| && ys[j] == xs[n];
      RemoveAt(ys, j);
      var rest := ys[..j] + ys[j + 1..];
      SumPermutation(xs[..n], rest);
      SumAppend(ys[..j] + [ys[j]], ys[j + 1..]);
      SumAppend(ys[..j], ys[j + 1..]);
      SumAppend(ys[..j], [ys[j]]);
    }
  }

  /** Taking out row `j` takes exactly that row's valid value, if any, out of the valid values. */
  lemma ValidValuesRemoveAt(rows: seq<Row>, j: nat, metric: Metric)
    requires j < |rows|
    ensures multiset(ValidValues(rows, metric)) ==
      multiset(ValidValues(rows[..j] + rows[j + 1..], metric)) + multiset(ValidOf(rows[j], metric))
  {
    RemoveAt(rows, j);
    ValidValuesAppend(rows[..j] + [rows[j]], rows[j + 1..], metric);
    ValidValuesSnocOf(rows[..j], rows[j], metric);
    ValidValuesAppend(rows[..j], rows[j + 1..], metric);
  }

  /** Reordering the rows reorders the valid values of every metric, and nothing more. */
  lemma {:induction false} ValidValuesPermutation(a: seq<Row>, b: seq<Row>, metric: Metric)
    requires multiset(a) == multiset(b)
    ensures multiset(ValidValues(a, metric)) == multiset(ValidValues(b, metric))
    decreases |a|
  {
    if a == [] {
      assert |b| == |multiset(b)| == 0;
      assert b == [];
    } else {
      var n := |a| - 1;
      var row := a[n];
      assert a == a[..n] + [row];
      assert row in multiset(b);
      var j :| 0 <= j < |b| && b[j] == row;
      RemoveAt(b, j);
      ValidValuesPermutation(a[..n], b[..j] + b[j + 1..], metric);
      ValidValuesSnocOf(a[..n], row, metric);
      ValidValuesRemoveAt(b, j, metric);
    }
  }

  /** The aggregates do not depend on the order of the rows: every total and every mean is the same. */
  lemma AggregatesPermutation(a: seq<Row>, b: seq<Row>)
    requires multiset(a) == multiset(b)
    ensures Aggregates(a) == Aggregates(b)
  {
    forall k: AggKey
      ensures (k in Aggregates(a) <==> k in Aggregates(b)) &&
              (k in Aggregates(a) ==> Aggregates(a)[k] == Aggregates(b)[k])
    {
      AggregatesAt(a, k);
      AggregatesAt(b, k);
      ValidValuesPermutation(a, b, k.m);
      var va, vb := ValidValues(a, k.m), ValidValues(b, k.m);
      assert |va| == |multiset(va)| == |multiset(vb)| == |vb|;
      SumPermutation(va, vb);
    }
  }

  /** Bounds that hold every valid value of a metric in the rows hold every collected value. */
  lemma {:induction false} ValidValuesWithin(rows: seq<Row>, metric: Metric, lo: real, hi: real)
    requires forall i :: 0 <= i < |rows| && IsValidNumber(Lookup(rows[i], metric)) ==>
      lo <= AsReal(Lookup(rows[i], metric)) <= hi
    ensures forall v :: v in ValidValues(rows, metric) ==> lo <= v <= hi
  {
    if rows != [] {
      var init := rows[..|rows| - 1];
      forall i | 0 <= i < |init| && IsValidNumber(Lookup(init[i], metric))
        ensures lo <= AsReal(Lookup(init[i], metric)) <= hi
      {
        assert init[i] == rows[i];
      }
      ValidValuesWithin(init, metric, lo, hi);
    }
  }

  /** A sum of values within `[lo, hi]` lies between `|xs| * lo` and `|xs| * hi`. */
  lemma {:induction false} SumBounds(xs: seq<real>, lo: real, hi: real)
    requires forall v :: v in xs ==> lo <= v <= hi
    ensures |xs| as real * lo <= Sum(xs) <= |xs| as real * hi
  {
    if xs != [] {
      var init := xs[..|xs| - 1];
      assert forall v :: v in init ==> v in xs;
      SumBounds(init, lo, hi);
      assert xs[|xs| - 1] in xs;
    }
  }

  /** A mean lies within any bounds that hold every valid value of its metric. */
  lemma MeanWithinBounds(rows: seq<Row>, metric: Metric, lo: real, hi: real)
    requires Avg(metric) in Aggregates(rows)
    requires forall i :: 0 <= i < |rows| && IsValidNumber(Lookup(rows[i], metric)) ==>
      lo <= AsReal(Lookup(rows[i], metric)) <= hi
    ensures lo <= Aggregates(rows)[Avg(metric)] <= hi
  {
    AggregatesAt(rows, Avg(metric));
    ValidValuesWithin(rows, metric, lo, hi);
    MeanOfBounded(ValidValues(rows, metric), lo, hi);
  }

  /** The mean of a non-empty sequence lies within any bounds that hold each of its values. */
  lemma MeanOfBounded(xs: seq<real>, lo: real, hi: real)
    requires |xs| > 0
    requires forall v :: v in xs ==> lo <= v <= hi
    ensures lo <= Sum(xs) / |xs| as real <= hi
  {
    SumBounds(xs, lo, hi);
    QuotientBounds(Sum(xs), |xs| as real, lo, hi);
  }

  /** Dividing by a positive count keeps the bounds `count * lo` and `count * hi` as `lo` and `hi`. */
  lemma QuotientBounds(total: real, count: real, lo: real, hi: real)
    requires count > 0.0 && count * lo <= total <= count * hi
    ensures lo <= total / count <= hi
  {
    var q := total / count;
    assert total == q * count;
    assert count * (q - lo) >= 0.0;
    assert count * (hi - q) >= 0.0;
  }

  // ---------------------------------------------------------------------------
  // The calculator
  // ---------------------------------------------------------------------------

  /** `MetricSummary`: the mapping used, the derived rows and the aggregates. */
  datatype MetricSummary = MetricSummary(mapping: ColumnMapping, perRow: seq<Row>, aggregates: map<AggKey, real>)

  /** `MetricCalculator.__call__`: derives every row, then aggregates the derived rows. */
  method Calculate(records: seq<Record>, m: ColumnMapping) returns (summary: MetricSummary)
    ensures summary.mapping == m
    ensures |summary.perRow| == |records|
    ensures forall i :: 0 <= i < |records| ==> summary.perRow[i] == DeriveRow(records[i], m)
    ensures summary.aggregates == Aggregates(summary.perRow)
  {
    var perRow := DeriveRowMetrics(records, m);
    var aggregates := Aggregate(perRow);
    summary := MetricSummary(m, perRow, aggregates);
  }
}
