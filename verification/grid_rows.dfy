/** The row data of the planning grid (the row-building effect in
    src/components/Planning/PlanningGrid.tsx): one row per (store, SKU) pair,
    stores outermost, cut off at 100 rows; each row holds, for every week,
    the stored sales units (0 when no fact exists) and the three derived
    cells computed from the row SKU's price and cost. */
module GridRows {
  import opened Wrappers
  import opened Records
  import opened GridFields

  /** A grid row: the pair's ids and labels, and the cells keyed by field name. */
  datatype GridRow = GridRow(store: string, storeLabel: string, sku: string, skuLabel: string,
                             cells: map<string, real>)

  /** `MAX_ROWS`. */
  const MaxRows: nat := 100

  function Min(a: int, b: int): int {
    if a <= b then a else b
  }

  /** The four field names of one week. */
  function WeekFields(weekId: string): set<string> {
    {FieldName(weekId, SalesUnits), FieldName(weekId, SalesDollars),
     FieldName(weekId, GmDollars), FieldName(weekId, GmPercentage)}
  }

  /** The four assignments `row[`${week.id}_...`] = ...` for one week. */
  function WriteWeek(cells: map<string, real>, weekId: string, units: real, sku: Sku): map<string, real> {
    cells[FieldName(weekId, SalesUnits) := CellValue(SalesUnits, units, sku.price, sku.cost)]
         [FieldName(weekId, SalesDollars) := CellValue(SalesDollars, units, sku.price, sku.cost)]
         [FieldName(weekId, GmDollars) := CellValue(GmDollars, units, sku.price, sku.cost)]
         [FieldName(weekId, GmPercentage) := CellValue(GmPercentage, units, sku.price, sku.cost)]
  }

  /** The four field names of a week are pairwise different. */
  lemma WeekFieldsDistinct(weekId: string)
    ensures forall m :: MetricOf(FieldName(weekId, m)) == Some(m)
  {
    forall m
      ensures MetricOf(FieldName(weekId, m)) == Some(m)
    {
      MetricOfFieldName(weekId, m);
    }
  }

  /** Writing a week adds exactly its four cells. */
  lemma WriteWeekKeys(cells: map<string, real>, weekId: string, units: real, sku: Sku)
    ensures WriteWeek(cells, weekId, units, sku).Keys == cells.Keys + WeekFields(weekId)
  {
  }

  /** Each of the four cells holds its metric's value. */
  lemma WriteWeekValues(cells: map<string, real>, weekId: string, units: real, sku: Sku, m: Metric)
    ensures WriteWeek(cells, weekId, units, sku)[FieldName(weekId, m)] == CellValue(m, units, sku.price, sku.cost)
  {
    match m
    case SalesUnits =>
      FieldNamesDiffer(weekId, SalesUnits, weekId, SalesDollars);
      FieldNamesDiffer(weekId, SalesUnits, weekId, GmDollars);
      FieldNamesDiffer(weekId, SalesUnits, weekId, GmPercentage);
    case SalesDollars =>
      FieldNamesDiffer(weekId, SalesDollars, weekId, GmDollars);
      FieldNamesDiffer(weekId, SalesDollars, weekId, GmPercentage);
    case GmDollars =>
      FieldNamesDiffer(weekId, GmDollars, weekId, GmPercentage);
    case GmPercentage =>
  }

  /** Every other cell is left alone. */
  lemma WriteWeekKeepsOthers(cells: map<string, real>, weekId: string, units: real, sku: Sku, k: string)
    requires k in cells && k !in WeekFields(weekId)
    ensures WriteWeek(cells, weekId, units, sku)[k] == cells[k]
  {
  }

  /** The cells of one row: the week loop, in calendar order. */
  function WeekCells(weeks: seq<Week>, facts: seq<Fact>, storeId: string, sku: Sku): map<string, real>
    decreases |weeks|
  {
    if |weeks| == 0 then map[]
    else
      var w := weeks[|weeks| - 1];
      WriteWeek(WeekCells(weeks[..|weeks| - 1], facts, storeId, sku), w.id,
                UnitsFor(facts, Key(storeId, sku.id, w.id)), sku)
  }

  /** `k` names one of the cells of some calendar week. */
  predicate IsFieldOf(weeks: seq<Week>, k: string) {
    exists j, m :: 0 <= j < |weeks| && k == FieldName(weeks[j].id, m)
  }

  lemma IsFieldOfSnocDown(weeks: seq<Week>, k: string)
    requires |weeks| > 0 && IsFieldOf(weeks, k)
    ensures IsFieldOf(weeks[..|weeks| - 1], k) || k in WeekFields(weeks[|weeks| - 1].id)
  {
    var n := |weeks|;
    var j, m :| 0 <= j < n && k == FieldName(weeks[j].id, m);
    if j < n - 1 {
      assert weeks[..n - 1][j] == weeks[j];
    } else {
      match m
      case SalesUnits =>
      case SalesDollars =>
      case GmDollars =>
      case GmPercentage =>
    }
  }

  lemma IsFieldOfSnocUp(weeks: seq<Week>, k: string)
    requires |weeks| > 0
    requires IsFieldOf(weeks[..|weeks| - 1], k) || k in WeekFields(weeks[|weeks| - 1].id)
    ensures IsFieldOf(weeks, k)
  {
    var n := |weeks|;
    var init := weeks[..n - 1];
    if IsFieldOf(init, k) {
      var j, m :| 0 <= j < n - 1 && k == FieldName(init[j].id, m);
      assert weeks[j] == init[j];
    } else {
      var m :| k == FieldName(weeks[n - 1].id, m);
    }
  }

  lemma IsFieldOfSnoc(weeks: seq<Week>, k: string)
    requires |weeks| > 0
    ensures IsFieldOf(weeks, k) <==>
      IsFieldOf(weeks[..|weeks| - 1], k) || k in WeekFields(weeks[|weeks| - 1].id)
  {
    if IsFieldOf(weeks, k) {
      IsFieldOfSnocDown(weeks, k);
    }
    if IsFieldOf(weeks[..|weeks| - 1], k) || k in WeekFields(weeks[|weeks| - 1].id) {
      IsFieldOfSnocUp(weeks, k);
    }
  }

  /** A row has a cell exactly for each metric of each calendar week. */
  lemma {:induction false} WeekCellsKeys(weeks: seq<Week>, facts: seq<Fact>, storeId: string, sku: Sku, k: string)
    ensures k in WeekCells(weeks, facts, storeId, sku) <==> IsFieldOf(weeks, k)
    decreases |weeks|
  {
    if |weeks| > 0 {
      var n := |weeks|;
      var w := weeks[n - 1];
      var prev := WeekCells(weeks[..n - 1], facts, storeId, sku);
      WriteWeekKeys(prev, w.id, UnitsFor(facts, Key(storeId, sku.id, w.id)), sku);
      WeekCellsKeys(weeks[..n - 1], facts, storeId, sku, k);
      IsFieldOfSnoc(weeks, k);
    }
  }

  /** Every cell of week `weeks[j]` holds its metric computed from the units
      stored for (store, SKU, week), or from 0 when none is stored. */
  lemma {:induction false} WeekCellsValues(weeks: seq<Week>, facts: seq<Fact>, storeId: string, sku: Sku,
                                            j: nat, m: Metric)
    requires j < |weeks|
    ensures var r := WeekCells(weeks, facts, storeId, sku);
      && FieldName(weeks[j].id, m) in r
      && r[FieldName(weeks[j].id, m)] ==
         CellValue(m, UnitsFor(facts, Key(storeId, sku.id, weeks[j].id)), sku.price, sku.cost)
    decreases |weeks|
  {
    var n := |weeks|;
    var w := weeks[n - 1];
    var prev := WeekCells(weeks[..n - 1], facts, storeId, sku);
    var k := FieldName(weeks[j].id, m);
    var u := UnitsFor(facts, Key(storeId, sku.id, w.id));
    assert WeekCells(weeks, facts, storeId, sku) == WriteWeek(prev, w.id, u, sku);
    if k in WeekFields(w.id) {
      SameWeekValue(prev, w.id, weeks[j].id, m, facts, storeId, sku);
    } else {
      assert j < n - 1;
      assert weeks[..n - 1][j] == weeks[j];
      WeekCellsValues(weeks[..n - 1], facts, storeId, sku, j, m);
      OtherWeekValue(prev, w.id, u, sku, k);
    }
  }

  /** A cell of the week just written holds that week's metric. */
  lemma SameWeekValue(prev: map<string, real>, weekId: string, id: string, m: Metric,
                      facts: seq<Fact>, storeId: string, sku: Sku)
    requires FieldName(id, m) in WeekFields(weekId)
    ensures var r := WriteWeek(prev, weekId, UnitsFor(facts, Key(storeId, sku.id, weekId)), sku);
      && FieldName(id, m) in r
      && r[FieldName(id, m)] == CellValue(m, UnitsFor(facts, Key(storeId, sku.id, id)), sku.price, sku.cost)
  {
    var m' :| FieldName(id, m) == FieldName(weekId, m');
    FieldNameInjective(id, m, weekId, m');
    WriteWeekKeys(prev, weekId, UnitsFor(facts, Key(storeId, sku.id, weekId)), sku);
    WriteWeekValues(prev, weekId, UnitsFor(facts, Key(storeId, sku.id, weekId)), sku, m);
  }

  /** A cell of another week keeps its value. */
  lemma OtherWeekValue(prev: map<string, real>, weekId: string, units: real, sku: Sku, k: string)
    requires k in prev && k !in WeekFields(weekId)
    ensures k in WriteWeek(prev, weekId, units, sku) && WriteWeek(prev, weekId, units, sku)[k] == prev[k]
  {
    WriteWeekKeys(prev, weekId, units, sku);
    WriteWeekKeepsOthers(prev, weekId, units, sku, k);
  }

  /** The row of one (store, SKU) pair. */
  function MakeRow(store: Store, sku: Sku, weeks: seq<Week>, facts: seq<Fact>): GridRow {
    GridRow(store.id, store.storeLabel, sku.id, sku.skuLabel, WeekCells(weeks, facts, store.id, sku))
  }

  /** The meaning of a row: ids and labels of the pair, a cell for exactly
      each metric of each week, holding the metric for the stored units. */
  lemma MakeRowMeaning(store: Store, sku: Sku, weeks: seq<Week>, facts: seq<Fact>)
    ensures var row := MakeRow(store, sku, weeks, facts);
      && row.store == store.id && row.sku == sku.id
      && row.storeLabel == store.storeLabel && row.skuLabel == sku.skuLabel
      && (forall k :: k in row.cells <==> IsFieldOf(weeks, k))
      && (forall j, m :: 0 <= j < |weeks| ==>
            FieldName(weeks[j].id, m) in row.cells &&
            row.cells[FieldName(weeks[j].id, m)] ==
              CellValue(m, UnitsFor(facts, Key(store.id, sku.id, weeks[j].id)), sku.price, sku.cost))
  {
    forall k
      ensures k in WeekCells(weeks, facts, store.id, sku) <==> IsFieldOf(weeks, k)
    {
      WeekCellsKeys(weeks, facts, store.id, sku, k);
    }
    forall j, m | 0 <= j < |weeks|
      ensures var r := WeekCells(weeks, facts, store.id, sku);
        FieldName(weeks[j].id, m) in r &&
        r[FieldName(weeks[j].id, m)] ==
          CellValue(m, UnitsFor(facts, Key(store.id, sku.id, weeks[j].id)), sku.price, sku.cost)
    {
      WeekCellsValues(weeks, facts, store.id, sku, j, m);
    }
  }

  /** The rows of one store, in SKU order. */
  function RowsOf(store: Store, skus: seq<Sku>, weeks: seq<Week>, facts: seq<Fact>): seq<GridRow> {
    seq(|skus|, b requires 0 <= b < |skus| => MakeRow(store, skus[b], weeks, facts))
  }

  /** All rows without the cap: stores outermost, SKUs innermost. */
  function Cross(stores: seq<Store>, skus: seq<Sku>, weeks: seq<Week>, facts: seq<Fact>): seq<GridRow>
    decreases |stores|
  {
    if |stores| == 0 then []
    else Cross(stores[..|stores| - 1], skus, weeks, facts) + RowsOf(stores[|stores| - 1], skus, weeks, facts)
  }

  lemma MulLe(x: int, y: int, n: int)
    requires x <= y && 0 <= n
    ensures x * n <= y * n
  {
    assert y * n - x * n == (y - x) * n;
  }

  lemma IndexBelow(a: int, b: int, m: int, n: int)
    requires 0 <= a < m && 0 <= b < n
    ensures a * n + b < m * n
  {
    MulLe(a + 1, m, n);
    assert (a + 1) * n == a * n + n;
  }

  /** There are `|stores| * |skus|` rows without the cap. */
  lemma {:induction false} CrossLength(stores: seq<Store>, skus: seq<Sku>, weeks: seq<Week>, facts: seq<Fact>)
    ensures |Cross(stores, skus, weeks, facts)| == |stores| * |skus|
    decreases |stores|
  {
    if |stores| > 0 {
      var m := |stores|;
      CrossLength(stores[..m - 1], skus, weeks, facts);
      assert m * |skus| == (m - 1) * |skus| + |skus|;
    }
  }

  /** Row `a * |skus| + b` of the uncapped list belongs to store `a` and
      SKU `b`: the list is indexed by store, then SKU. */
  lemma {:induction false} CrossAt(stores: seq<Store>, skus: seq<Sku>, weeks: seq<Week>, facts: seq<Fact>,
                                   a: nat, b: nat)
    requires a < |stores| && b < |skus|
    ensures a * |skus| + b < |Cross(stores, skus, weeks, facts)|
    ensures Cross(stores, skus, weeks, facts)[a * |skus| + b] == MakeRow(stores[a], skus[b], weeks, facts)
    decreases |stores|, 1
  {
    CrossLength(stores, skus, weeks, facts);
    IndexBelow(a, b, |stores|, |skus|);
    if a < |stores| - 1 {
      CrossAtEarlier(stores, skus, weeks, facts, a, b);
    } else {
      CrossAtLast(stores, skus, weeks, facts, b);
    }
  }

  /** `CrossAt` for a store before the last: its row lies in the rows of
      the earlier stores. */
  lemma {:induction false} CrossAtEarlier(stores: seq<Store>, skus: seq<Sku>, weeks: seq<Week>, facts: seq<Fact>,
                                          a: nat, b: nat)
    requires a < |stores| - 1 && b < |skus|
    requires a * |skus| + b < |Cross(stores, skus, weeks, facts)|
    ensures Cross(stores, skus, weeks, facts)[a * |skus| + b] == MakeRow(stores[a], skus[b], weeks, facts)
    decreases |stores|, 0
  {
    var init := stores[..|stores| - 1];
    var pre := Cross(init, skus, weeks, facts);
    var last := RowsOf(stores[|stores| - 1], skus, weeks, facts);
    CrossAt(init, skus, weeks, facts, a, b);
    assert init[a] == stores[a];
    assert Cross(stores, skus, weeks, facts) == pre + last;
    AppendLeft(pre, last, a * |skus| + b);
  }

  /** `CrossAt` for the last store: its row lies in the rows appended for
      it. */
  lemma {:induction false} CrossAtLast(stores: seq<Store>, skus: seq<Sku>, weeks: seq<Week>, facts: seq<Fact>,
                                       b: nat)
    requires 0 < |stores| && b < |skus|
    requires (|stores| - 1) * |skus| + b < |Cross(stores, skus, weeks, facts)|
    ensures Cross(stores, skus, weeks, facts)[(|stores| - 1) * |skus| + b]
         == MakeRow(stores[|stores| - 1], skus[b], weeks, facts)
  {
    var init := stores[..|stores| - 1];
    var pre := Cross(init, skus, weeks, facts);
    var last := RowsOf(stores[|stores| - 1], skus, weeks, facts);
    CrossLength(init, skus, weeks, facts);
    assert Cross(stores, skus, weeks, facts) == pre + last;
    AppendRight(pre, last, b);
  }

  lemma AppendLeft<T>(p: seq<T>, q: seq<T>, i: nat)
    requires i < |p|
    ensures (p + q)[i] == p[i]
  {
  }

  lemma AppendRight<T>(p: seq<T>, q: seq<T>, j: nat)
    requires j < |q|
    ensures (p + q)[|p| + j] == q[j]
  {
  }

  /** The rows built for the first stores are a prefix of all rows. */
  lemma {:induction false} CrossPrefix(stores: seq<Store>, skus: seq<Sku>, weeks: seq<Week>, facts: seq<Fact>, i: nat)
    requires i <= |stores|
    ensures Cross(stores[..i], skus, weeks, facts) <= Cross(stores, skus, weeks, facts)
    decreases |stores|
  {
    if i < |stores| {
      var init := stores[..|stores| - 1];
      assert init[..i] == stores[..i];
      CrossPrefix(init, skus, weeks, facts, i);
    } else {
      assert stores[..i] == stores;
    }
  }

  /** The row-building loop: at most `MaxRows` rows, taken in order from
      the uncapped store-by-SKU list (whose order `CrossAt` states). */
  method BuildRows(stores: seq<Store>, skus: seq<Sku>, weeks: seq<Week>, facts: seq<Fact>)
    returns (rows: seq<GridRow>)
    ensures |rows| == Min(MaxRows, |stores| * |skus|)
    ensures rows <= Cross(stores, skus, weeks, facts)
  {
    var n := |skus|;
    rows := [];
    var i := 0;
    while i < |stores| && |rows| < MaxRows
      invariant 0 <= i <= |stores|
      invariant |rows| == Min(MaxRows, i * n)
      invariant rows <= Cross(stores[..i], skus, weeks, facts)
      decreases |stores| - i
    {
      CrossLength(stores[..i], skus, weeks, facts);
      assert rows == Cross(stores[..i], skus, weeks, facts);
      rows := StoreRows(rows, stores[i], skus, weeks, facts);
      CrossSnoc(stores, skus, weeks, facts, i);
      assert (i + 1) * n == i * n + n;
      i := i + 1;
    }
    CrossLength(stores, skus, weeks, facts);
    CrossPrefix(stores, skus, weeks, facts, i);
    var all := Cross(stores, skus, weeks, facts);
    assert rows == all[..|rows|];
    if i < |stores| {
      MulLe(i, |stores|, n);
    }
  }

  /** The inner loop for one store: appends its rows, in SKU order, until
      the cut-off. */
  method StoreRows(pre: seq<GridRow>, store: Store, skus: seq<Sku>, weeks: seq<Week>, facts: seq<Fact>)
    returns (rows: seq<GridRow>)
    requires |pre| <= MaxRows
    ensures |rows| == Min(MaxRows, |pre| + |skus|)
    ensures rows <= pre + RowsOf(store, skus, weeks, facts)
  {
    var here := RowsOf(store, skus, weeks, facts);
    rows := pre;
    var j := 0;
    while j < |skus| && |rows| < MaxRows
      invariant 0 <= j <= |skus|
      invariant |rows| == |pre| + j <= MaxRows
      invariant rows == pre + here[..j]
      decreases |skus| - j
    {
      rows := rows + [MakeRow(store, skus[j], weeks, facts)];
      assert here[..j + 1] == here[..j] + [here[j]];
      j := j + 1;
    }
    assert (pre + here)[..|rows|] == rows;
  }

  /** The rows of the first `i + 1` stores extend those of the first `i`. */
  lemma CrossSnoc(stores: seq<Store>, skus: seq<Sku>, weeks: seq<Week>, facts: seq<Fact>, i: nat)
    requires i < |stores|
    ensures Cross(stores[..i + 1], skus, weeks, facts)
         == Cross(stores[..i], skus, weeks, facts) + RowsOf(stores[i], skus, weeks, facts)
  {
    assert stores[..i + 1][..i] == stores[..i];
  }

  /** The effect as a whole: rows are rebuilt only when there are stores
      and SKUs; otherwise the previous rows stay. */
  method RefreshRows(previous: seq<GridRow>, stores: seq<Store>, skus: seq<Sku>, weeks: seq<Week>, facts: seq<Fact>)
    returns (rows: seq<GridRow>)
    ensures |stores| == 0 || |skus| == 0 ==> rows == previous
    ensures |stores| > 0 && |skus| > 0 ==>
      && |rows| == Min(MaxRows, |stores| * |skus|)
      && rows <= Cross(stores, skus, weeks, facts)
  {
    if |stores| > 0 && |skus| > 0 {
      rows := BuildRows(stores, skus, weeks, facts);
    } else {
      rows := previous;
    }
  }
}
