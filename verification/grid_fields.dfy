/** Field names of the planning grid (src/components/Planning/PlanningGrid.tsx):
    every week contributes four cells named `<weekId>_<metric>`, and the edit
    handler recovers the week id as the text before the first underscore. */
module GridFields {
  import opened Wrappers
  import opened JsText
  import opened Margin

  /** The four cells of a week, in column order. */
  datatype Metric = SalesUnits | SalesDollars | GmDollars | GmPercentage

  const AllMetrics: seq<Metric> := [SalesUnits, SalesDollars, GmDollars, GmPercentage]

  function Suffix(m: Metric): string {
    match m
    case SalesUnits => "_salesUnits"
    case SalesDollars => "_salesDollars"
    case GmDollars => "_gmDollars"
    case GmPercentage => "_gmPercentage"
  }

  /** `${week.id}_salesUnits` and its three siblings. */
  function FieldName(weekId: string, m: Metric): string {
    weekId + Suffix(m)
  }

  /** A position, counted from the end, where the suffixes of two different
      metrics have different characters. */
  function Distinguisher(m1: Metric, m2: Metric): (k: nat)
    requires m1 != m2
    ensures 1 <= k <= |Suffix(m1)| && 1 <= k <= |Suffix(m2)|
    ensures Suffix(m1)[|Suffix(m1)| - k] != Suffix(m2)[|Suffix(m2)| - k]
  {
    if m1 == GmPercentage || m2 == GmPercentage then 1
    else if m1 == SalesUnits || m2 == SalesUnits then 2
    else 8
  }

  /** The metric whose suffix ends `field`, if any. */
  function MetricOf(field: string): Option<Metric> {
    if EndsWith(field, Suffix(SalesUnits)) then Some(SalesUnits)
    else if EndsWith(field, Suffix(SalesDollars)) then Some(SalesDollars)
    else if EndsWith(field, Suffix(GmDollars)) then Some(GmDollars)
    else if EndsWith(field, Suffix(GmPercentage)) then Some(GmPercentage)
    else None
  }

  /** A field name does not end with another metric's suffix. */
  lemma NotOtherSuffix(weekId: string, m: Metric, m': Metric)
    requires m' != m
    ensures !EndsWith(FieldName(weekId, m), Suffix(m'))
  {
    var x := FieldName(weekId, m);
    var k := Distinguisher(m, m');
    if |Suffix(m')| <= |x| {
      assert x[|x| - k] == Suffix(m)[|Suffix(m)| - k];
      assert x[|x| - |Suffix(m')|..][|Suffix(m')| - k] == x[|x| - k];
    }
  }

  /** A field name ends with its own metric's suffix and with no other. */
  lemma MetricOfFieldName(weekId: string, m: Metric)
    ensures EndsWith(FieldName(weekId, m), Suffix(m))
    ensures forall m' :: m' != m ==> !EndsWith(FieldName(weekId, m), Suffix(m'))
    ensures MetricOf(FieldName(weekId, m)) == Some(m)
  {
    var x := FieldName(weekId, m);
    assert x[|x| - |Suffix(m)|..] == Suffix(m);
    forall m' | m' != m
      ensures !EndsWith(x, Suffix(m'))
    {
      NotOtherSuffix(weekId, m, m');
    }
  }

  /** Different (week id, metric) pairs never produce the same field name,
      so writing one cell never overwrites another week's or metric's cell. */
  lemma FieldNameInjective(a: string, m1: Metric, b: string, m2: Metric)
    requires FieldName(a, m1) == FieldName(b, m2)
    ensures a == b && m1 == m2
  {
    var x := FieldName(a, m1);
    MetricOfFieldName(a, m1);
    MetricOfFieldName(b, m2);
    assert |a| == |b|;
    assert a == x[..|a|] == b;
  }

  /** The same statement read the other way: different pairs give
      different names. */
  lemma FieldNamesDiffer(a: string, m1: Metric, b: string, m2: Metric)
    requires a != b || m1 != m2
    ensures FieldName(a, m1) != FieldName(b, m2)
  {
    MetricOfFieldName(a, m1);
    MetricOfFieldName(b, m2);
    assert FieldName(a, m1)[..|a|] == a;
    assert FieldName(b, m2)[..|b|] == b;
  }

  /** The value a cell holds for the given units, price and cost, using
      `calculateGMData` for the derived cells. */
  function CellValue(m: Metric, units: real, price: real, cost: real): (v: real)
    ensures m == SalesUnits ==> v == units
    ensures m == SalesDollars ==> v == units * price
    ensures m == GmDollars ==> v == units * (price - cost)
    ensures m == GmPercentage ==> v == GmData(units, price, cost).gmPercentage
  {
    var d := GmData(units, price, cost);
    match m
    case SalesUnits => units
    case SalesDollars => d.salesDollars
    case GmDollars => d.gmDollars
    case GmPercentage => d.gmPercentage
  }

  /** `fieldName.endsWith('_salesUnits')`: the only cells the edit handler
      acts on. */
  predicate IsSalesUnitsField(field: string) {
    EndsWith(field, Suffix(SalesUnits))
  }

  /** `fieldName.split('_')[0]`: the field name up to, and without, its
      first underscore, or the whole name when it has none. */
  function WeekIdOf(field: string): (w: string)
    ensures |w| <= |field| && w == field[..|w|]
    ensures forall i :: 0 <= i < |w| ==> w[i] != '_'
    ensures |w| < |field| ==> field[|w|] == '_'
  {
    BeforeFirst(field, '_')
  }

  /** For week ids without an underscore, the handler recovers the week from
      the sales-units field name. */
  lemma WeekIdRoundTrip(weekId: string)
    requires forall i :: 0 <= i < |weekId| ==> weekId[i] != '_'
    ensures IsSalesUnitsField(FieldName(weekId, SalesUnits))
    ensures WeekIdOf(FieldName(weekId, SalesUnits)) == weekId
  {
    assert FieldName(weekId, SalesUnits) == weekId + ['_'] + "salesUnits";
    BeforeFirstOfJoin(weekId, '_', "salesUnits");
  }

  /** A week id containing an underscore is cut short: an edit in week
      "W_1" is attributed to week "W". */
  lemma WeekIdWithUnderscoreIsTruncated()
    ensures IsSalesUnitsField(FieldName("W_1", SalesUnits))
    ensures WeekIdOf(FieldName("W_1", SalesUnits)) == "W"
  {
    assert FieldName("W_1", SalesUnits) == "W" + ['_'] + "1_salesUnits";
    BeforeFirstOfJoin("W", '_', "1_salesUnits");
  }
}
