/** The per-store chart (src/components/Charts/StoreChart.tsx): weeks in
    ascending sequence-number order (a stable sort), and for each week the
    gross-margin dollars summed over the store's facts of that week and the
    pooled gross-margin percentage. */
module StoreChart {
  import opened Wrappers
  import opened Records
  import opened Margin
  import Lists

  /** One bar/line point of the chart. */
  datatype ChartPoint = ChartPoint(week: string, gmDollars: real, gmPercentage: real)

  predicate SortedBySeqNo(ws: seq<Week>) {
    forall i, j :: 0 <= i < j < |ws| ==> ws[i].seqNo <= ws[j].seqNo
  }

  /** Inserts `w` in front of the first week whose sequence number is not
      smaller, so `w` stays ahead of the equal weeks that came after it. */
  function Insert(w: Week, s: seq<Week>): (r: seq<Week>)
    ensures |r| == |s| + 1
    ensures r[0] == w || (|s| > 0 && r[0] == s[0])
    ensures multiset(r) == multiset(s) + multiset{w}
  {
    if |s| == 0 || w.seqNo <= s[0].seqNo then [w] + s
    else
      assert s == [s[0]] + s[1..];
      [s[0]] + Insert(w, s[1..])
  }

  lemma {:induction false} InsertSorted(w: Week, s: seq<Week>)
    requires SortedBySeqNo(s)
    ensures SortedBySeqNo(Insert(w, s))
    decreases |s|
  {
    if |s| > 0 && s[0].seqNo < w.seqNo {
      InsertSorted(w, s[1..]);
      var rest := Insert(w, s[1..]);
      assert Insert(w, s) == [s[0]] + rest;
      assert s[0].seqNo <= rest[0].seqNo;
    }
  }

  /** `[...weeks].sort((a, b) => a.seqNo - b.seqNo)`: a stable insertion sort. */
  function SortWeeks(ws: seq<Week>): (r: seq<Week>)
    ensures |r| == |ws|
    ensures multiset(r) == multiset(ws)
    ensures SortedBySeqNo(r)
  {
    if |ws| == 0 then []
    else
      assert ws == [ws[0]] + ws[1..];
      InsertSorted(ws[0], SortWeeks(ws[1..]));
      Insert(ws[0], SortWeeks(ws[1..]))
  }

  /** The test "this week has sequence number `v`". */
  function WithSeqNo(v: real): Week -> bool {
    (x: Week) => x.seqNo == v
  }

  /** Inserting into a sorted list puts `w` ahead of the weeks that already
      carry its sequence number, and leaves the order among them alone. */
  lemma {:induction false} InsertStable(w: Week, s: seq<Week>, v: real)
    requires SortedBySeqNo(s)
    ensures Lists.Filter(Insert(w, s), WithSeqNo(v)) ==
            (if w.seqNo == v then [w] else []) + Lists.Filter(s, WithSeqNo(v))
    decreases |s|
  {
    if |s| == 0 || w.seqNo <= s[0].seqNo {
      assert Insert(w, s) == [w] + s;
      Lists.FilterCons(w, s, WithSeqNo(v));
    } else {
      InsertStable(w, s[1..], v);
      InsertBehindStable(w, s, v);
    }
  }

  /** The step of `InsertStable` where `w` goes behind the first week. */
  lemma InsertBehindStable(w: Week, s: seq<Week>, v: real)
    requires |s| > 0 && s[0].seqNo < w.seqNo
    requires Lists.Filter(Insert(w, s[1..]), WithSeqNo(v)) ==
             (if w.seqNo == v then [w] else []) + Lists.Filter(s[1..], WithSeqNo(v))
    ensures Lists.Filter(Insert(w, s), WithSeqNo(v)) ==
            (if w.seqNo == v then [w] else []) + Lists.Filter(s, WithSeqNo(v))
  {
    InsertBehind(w, s);
    // `s[0]` comes before `w`, so at most one of them has number `v`.
    Lists.FilterBehind(Insert(w, s), s, WithSeqNo(v), if w.seqNo == v then [w] else []);
  }

  /** When `w` goes behind the first week, that week stays in front. */
  lemma InsertBehind(w: Week, s: seq<Week>)
    requires |s| > 0 && s[0].seqNo < w.seqNo
    ensures Insert(w, s)[0] == s[0] && Insert(w, s)[1..] == Insert(w, s[1..])
  {
    assert Insert(w, s) == [s[0]] + Insert(w, s[1..]);
  }

  /** Stability: the weeks sharing a sequence number keep their relative
      order. */
  lemma {:induction false} SortWeeksStable(ws: seq<Week>, v: real)
    ensures Lists.Filter(SortWeeks(ws), WithSeqNo(v)) == Lists.Filter(ws, WithSeqNo(v))
    decreases |ws|
  {
    if |ws| > 0 {
      SortWeeksStable(ws[1..], v);
      InsertStable(ws[0], SortWeeks(ws[1..]), v);
    }
  }

  /** Sales and gross-margin dollars added up over facts. */
  datatype Totals = Totals(salesDollars: real, gmDollars: real)

  function Plus(a: Totals, b: Totals): Totals {
    Totals(a.salesDollars + b.salesDollars, a.gmDollars + b.gmDollars)
  }

  /** What one fact adds: its dollars when its SKU is known, nothing
      otherwise. */
  function Contribution(f: Fact, skus: seq<Sku>): (t: Totals)
    ensures FindSku(skus, f.sku).None? ==> t == Totals(0.0, 0.0)
    ensures FindSku(skus, f.sku).Some? ==>
      var sku := FindSku(skus, f.sku).value;
      t.salesDollars == f.salesUnits * sku.price && t.gmDollars == f.salesUnits * (sku.price - sku.cost)
  {
    match FindSku(skus, f.sku)
    case None => Totals(0.0, 0.0)
    case Some(sku) =>
      var salesDollars := f.salesUnits * sku.price;
      Totals(salesDollars, salesDollars - f.salesUnits * sku.cost)
  }

  /** Facts with no negative units, priced by SKUs whose cost lies between 0
      and the price. */
  predicate WellPriced(fs: seq<Fact>, skus: seq<Sku>) {
    && (forall j :: 0 <= j < |fs| ==> fs[j].salesUnits >= 0.0)
    && (forall j :: 0 <= j < |skus| ==> 0.0 <= skus[j].cost <= skus[j].price)
  }

  /** A well-priced fact adds no negative margin and no more margin than
      sales. */
  lemma ContributionBounded(f: Fact, skus: seq<Sku>)
    requires f.salesUnits >= 0.0
    requires forall j :: 0 <= j < |skus| ==> 0.0 <= skus[j].cost <= skus[j].price
    ensures 0.0 <= Contribution(f, skus).gmDollars <= Contribution(f, skus).salesDollars
  {
    match FindSku(skus, f.sku)
    case None =>
    case Some(sku) =>
      var i :| 0 <= i < |skus| && skus[i] == sku;
      assert 0.0 <= sku.cost <= sku.price;
      assert f.salesUnits * (sku.price - sku.cost) >= 0.0;
      assert f.salesUnits * sku.cost >= 0.0;
      assert f.salesUnits * (sku.price - sku.cost) == f.salesUnits * sku.price - f.salesUnits * sku.cost;
  }

  /** The `forEach` accumulation over a week's facts. */
  function Sum(fs: seq<Fact>, skus: seq<Sku>): Totals
    decreases |fs|
  {
    if |fs| == 0 then Totals(0.0, 0.0)
    else Plus(Sum(fs[..|fs| - 1], skus), Contribution(fs[|fs| - 1], skus))
  }

  /** For well-priced facts the summed margin lies between 0 and the summed
      sales. */
  lemma {:induction false} SumBounded(fs: seq<Fact>, skus: seq<Sku>)
    requires WellPriced(fs, skus)
    ensures 0.0 <= Sum(fs, skus).gmDollars <= Sum(fs, skus).salesDollars
    decreases |fs|
  {
    if |fs| > 0 {
      var init := fs[..|fs| - 1];
      assert WellPriced(init, skus);
      SumBounded(init, skus);
      ContributionBounded(fs[|fs| - 1], skus);
    }
  }

  /** Totals of a concatenation are the sum of the totals. */
  lemma {:induction false} SumAppend(a: seq<Fact>, b: seq<Fact>, skus: seq<Sku>)
    ensures Sum(a + b, skus) == Plus(Sum(a, skus), Sum(b, skus))
    decreases |b|
  {
    if |b| > 0 {
      var b' := b[..|b| - 1];
      assert (a + b)[..|a + b| - 1] == a + b';
      assert (a + b)[|a + b| - 1] == b[|b| - 1];
      SumAppend(a, b', skus);
    } else {
      assert a + b == a;
    }
  }

  /** The test "this fact is of store `storeId` and week `weekId`". */
  function OfStoreWeek(storeId: string, weekId: string): Fact -> bool {
    (f: Fact) => f.store == storeId && f.week == weekId
  }

  /** `planningData.filter(item => item.store === storeId && item.week === week.id)`:
      the facts of the store and week, and only those. */
  function WeekFacts(facts: seq<Fact>, storeId: string, weekId: string): (r: seq<Fact>)
    ensures |r| <= |facts|
    ensures forall j :: 0 <= j < |r| ==> r[j].store == storeId && r[j].week == weekId && r[j] in facts
    ensures forall j :: 0 <= j < |facts| && facts[j].store == storeId && facts[j].week == weekId ==> facts[j] in r
  {
    var p := OfStoreWeek(storeId, weekId);
    var r := Lists.Filter(facts, p);
    assert forall j :: 0 <= j < |r| ==> p(r[j]);
    assert forall j :: 0 <= j < |facts| && p(facts[j]) ==> facts[j] in r;
    r
  }

  /** A point from a week label and the week's totals: the margin, and the
      margin as a percentage of the sales (0 when the sales are not
      positive). */
  function PointFrom(weekLabel: string, t: Totals): (p: ChartPoint)
    ensures p.week == weekLabel && p.gmDollars == t.gmDollars
    ensures t.salesDollars > 0.0 ==> p.gmPercentage * t.salesDollars == 100.0 * t.gmDollars
    ensures t.salesDollars <= 0.0 ==> p.gmPercentage == 0.0
  {
    ChartPoint(weekLabel, t.gmDollars, Percentage(t.gmDollars, t.salesDollars))
  }

  /** The point of one week, from the store's facts of that week. */
  function PointOf(w: Week, storeId: string, skus: seq<Sku>, facts: seq<Fact>): (p: ChartPoint)
    ensures var t := Sum(WeekFacts(facts, storeId, w.id), skus);
      && p.week == w.weekLabel
      && p.gmDollars == t.gmDollars
      && p.gmPercentage == Percentage(t.gmDollars, t.salesDollars)
  {
    PointFrom(w.weekLabel, Sum(WeekFacts(facts, storeId, w.id), skus))
  }

  /** `calculateChartData(storeId)`: one point per week, the weeks taken in
      ascending sequence-number order; each point carries the week's label,
      the margin summed over the store's facts of that week, and that margin
      as a percentage of the summed sales by the shared percentage rule. */
  function CalculateChartData(storeId: string, skus: seq<Sku>, weeks: seq<Week>, facts: seq<Fact>): (r: seq<ChartPoint>)
    ensures |r| == |weeks|
    ensures multiset(SortWeeks(weeks)) == multiset(weeks) && SortedBySeqNo(SortWeeks(weeks))
    ensures forall i :: 0 <= i < |r| ==>
      var w := SortWeeks(weeks)[i];
      var t := Sum(WeekFacts(facts, storeId, w.id), skus);
      && r[i].week == w.weekLabel
      && r[i].gmDollars == t.gmDollars
      && r[i].gmPercentage == Percentage(t.gmDollars, t.salesDollars)
  {
    var sorted := SortWeeks(weeks);
    var r := seq(|sorted|, i requires 0 <= i < |sorted| => PointOf(sorted[i], storeId, skus, facts));
    assert forall i :: 0 <= i < |r| ==> r[i] == PointOf(sorted[i], storeId, skus, facts);
    r
  }

  /** With no negative units and every SKU's cost between 0 and its price,
      every point of the chart shows a percentage between 0 and 100. */
  lemma ChartPercentageWithinBounds(storeId: string, skus: seq<Sku>, weeks: seq<Week>, facts: seq<Fact>, i: nat)
    requires WellPriced(facts, skus)
    requires i < |weeks|
    ensures 0.0 <= CalculateChartData(storeId, skus, weeks, facts)[i].gmPercentage <= 100.0
  {
    var w := SortWeeks(weeks)[i];
    var fs := WeekFacts(facts, storeId, w.id);
    forall j | 0 <= j < |fs|
      ensures fs[j].salesUnits >= 0.0
    {
      var k :| 0 <= k < |facts| && facts[k] == fs[j];
    }
    assert WellPriced(fs, skus);
    SumBounded(fs, skus);
    var t := Sum(fs, skus);
    assert CalculateChartData(storeId, skus, weeks, facts)[i] == PointOf(w, storeId, skus, facts);
    assert PointOf(w, storeId, skus, facts).gmPercentage == Percentage(t.gmDollars, t.salesDollars);
  }

  /** The chart lists each week once, ordered by sequence number, with the
      labels in that order and ties kept in calendar order. */
  lemma ChartOrder(storeId: string, skus: seq<Sku>, weeks: seq<Week>, facts: seq<Fact>)
    ensures var r := CalculateChartData(storeId, skus, weeks, facts);
      var sorted := SortWeeks(weeks);
      && |r| == |weeks|
      && multiset(sorted) == multiset(weeks)
      && (forall i, j :: 0 <= i < j < |r| ==> sorted[i].seqNo <= sorted[j].seqNo)
      && (forall i :: 0 <= i < |r| ==> r[i].week == sorted[i].weekLabel)
      && (forall v :: Lists.Filter(sorted, WithSeqNo(v)) == Lists.Filter(weeks, WithSeqNo(v)))
  {
    forall v
      ensures Lists.Filter(SortWeeks(weeks), WithSeqNo(v)) == Lists.Filter(weeks, WithSeqNo(v))
    {
      SortWeeksStable(weeks, v);
    }
  }

  /** A week without facts for the store shows zero margin and 0 %. */
  lemma EmptyWeekIsZero(w: Week, storeId: string, skus: seq<Sku>, facts: seq<Fact>)
    requires forall j :: 0 <= j < |facts| ==> facts[j].store != storeId || facts[j].week != w.id
    ensures PointOf(w, storeId, skus, facts) == ChartPoint(w.weekLabel, 0.0, 0.0)
  {
    assert forall j :: 0 <= j < |facts| ==> !OfStoreWeek(storeId, w.id)(facts[j]);
    assert WeekFacts(facts, storeId, w.id) == [];
  }

  /** With a single fact for the week, the point agrees with the grid's
      per-cell figures for that fact. */
  lemma SingleFactMatchesGrid(w: Week, storeId: string, skus: seq<Sku>, facts: seq<Fact>, sku: Sku)
    requires |WeekFacts(facts, storeId, w.id)| == 1
    requires FindSku(skus, WeekFacts(facts, storeId, w.id)[0].sku) == Some(sku)
    ensures var f := WeekFacts(facts, storeId, w.id)[0];
      var m := GmData(f.salesUnits, sku.price, sku.cost);
      PointOf(w, storeId, skus, facts).gmDollars == m.gmDollars &&
      PointOf(w, storeId, skus, facts).gmPercentage == m.gmPercentage
  {
    var fs := WeekFacts(facts, storeId, w.id);
    var f := fs[0];
    var m := GmData(f.salesUnits, sku.price, sku.cost);
    assert fs[..0] == [];
    assert Contribution(f, skus) == Totals(m.salesDollars, m.gmDollars);
    var t := Sum(fs, skus);
    assert Sum(fs[..0], skus) == Totals(0.0, 0.0);
    assert t == Plus(Sum(fs[..0], skus), Contribution(f, skus));
    assert t == Totals(m.salesDollars, m.gmDollars);
    assert m.gmPercentage == Percentage(m.gmDollars, m.salesDollars);
  }

  /** A fact added for the same store and week adds its dollars to the
      week's totals, even when a fact with the same key is already there;
      a fact of another store or week leaves them alone. */
  lemma AddedFactSummed(facts: seq<Fact>, f: Fact, storeId: string, weekId: string, skus: seq<Sku>)
    ensures f.store == storeId && f.week == weekId ==>
      Sum(WeekFacts(facts + [f], storeId, weekId), skus) ==
      Plus(Sum(WeekFacts(facts, storeId, weekId), skus), Contribution(f, skus))
    ensures !(f.store == storeId && f.week == weekId) ==>
      Sum(WeekFacts(facts + [f], storeId, weekId), skus) == Sum(WeekFacts(facts, storeId, weekId), skus)
  {
    var p := OfStoreWeek(storeId, weekId);
    Lists.FilterAppend(facts, [f], p);
    assert [f][1..] == [];
    var fs := WeekFacts(facts, storeId, weekId);
    SumAppend(fs, Lists.Filter([f], p), skus);
    assert [f][..0] == [];
  }

  /** Totals of a fact appended to a list. */
  lemma SumSnoc(fs: seq<Fact>, g: Fact, skus: seq<Sku>)
    ensures Sum(fs + [g], skus) == Plus(Sum(fs, skus), Contribution(g, skus))
  {
    assert (fs + [g])[..|fs|] == fs;
  }

  /** The percentage pools the week: two facts of 10 units at price 10, with
      costs 9 and 0, give (10 + 100) / 200 = 55 %, not the mean of 10 % and
      100 % computed per fact. */
  lemma PooledPercentage()
    ensures var a := Sku("A", "A", "c", "d", 10.0, 9.0);
      var b := Sku("B", "B", "c", "d", 10.0, 0.0);
      var w := Week(1.0, "W1", "Week 1", "M1", "Jan");
      var facts := [Fact("S1", "A", "W1", 10.0), Fact("S1", "B", "W1", 10.0)];
      PointOf(w, "S1", [a, b], facts) == ChartPoint("Week 1", 110.0, 55.0)
  {
    var a := Sku("A", "A", "c", "d", 10.0, 9.0);
    var b := Sku("B", "B", "c", "d", 10.0, 0.0);
    var facts := [Fact("S1", "A", "W1", 10.0), Fact("S1", "B", "W1", 10.0)];
    assert WeekFacts(facts, "S1", "W1") == facts;
    FindSkuAt([a, b], 0);
    FindSkuAt([a, b], 1);
    assert Contribution(facts[0], [a, b]) == Totals(100.0, 10.0);
    assert Contribution(facts[1], [a, b]) == Totals(100.0, 100.0);
    SumSnoc([], facts[0], [a, b]);
    SumSnoc([facts[0]], facts[1], [a, b]);
    assert [facts[0]] + [facts[1]] == facts;
    assert Sum(facts, [a, b]) == Totals(200.0, 110.0);
    assert Percentage(110.0, 200.0) == 55.0;
  }

  /** The chart effect: it recomputes only when a store is selected and
      there are SKUs and weeks; otherwise the previous points stay. */
  function RefreshChart(previous: seq<ChartPoint>, selected: string, skus: seq<Sku>, weeks: seq<Week>,
                        facts: seq<Fact>): (r: seq<ChartPoint>)
    ensures selected == "" || |skus| == 0 || |weeks| == 0 ==> r == previous
    ensures selected != "" && |skus| > 0 && |weeks| > 0 ==> |r| == |weeks|
    ensures selected != "" && |skus| > 0 && |weeks| > 0 ==> r == CalculateChartData(selected, skus, weeks, facts)
  {
    if selected != "" && |skus| > 0 && |weeks| > 0 then CalculateChartData(selected, skus, weeks, facts)
    else previous
  }

  /** The default-selection effect: with nothing selected, the first store
      is chosen; a selection, once made, is kept. */
  function DefaultSelection(selected: string, stores: seq<Store>): (r: string)
    ensures selected != "" ==> r == selected
    ensures selected == "" && |stores| > 0 ==> r == stores[0].id
    ensures selected == "" && |stores| == 0 ==> r == ""
  {
    if selected == "" && |stores| > 0 then stores[0].id else selected
  }
}
