/** The column layout of the planning grid (`columnDefs` in
    src/components/Planning/PlanningGrid.tsx): two pinned base columns, then
    one header per month holding one header per week, each with the four
    metric cells. Months are keyed `<month> - <monthLabel>` and appear in the
    order their first week appears in the calendar; such keys always contain
    " - ", so they are never array-index keys and `Object.entries` yields
    them in insertion order. */
module GridColumns {
  import opened Wrappers
  import opened Records
  import opened GridFields
  import Lists

  datatype BaseColumn = BaseColumn(field: string, headerName: string)
  datatype Leaf = Leaf(field: string, headerName: string, editable: bool)
  datatype WeekColumn = WeekColumn(headerName: string, children: seq<Leaf>)
  datatype MonthColumn = MonthColumn(headerName: string, children: seq<WeekColumn>)
  datatype Columns = Columns(base: seq<BaseColumn>, months: seq<MonthColumn>)

  /** `${week.month} - ${week.monthLabel}`. */
  function MonthKey(w: Week): string {
    w.month + " - " + w.monthLabel
  }

  /** The test "this week belongs to month `key`". */
  function InMonth(key: string): Week -> bool {
    (x: Week) => MonthKey(x) == key
  }

  /** One entry of `monthGroups`: a month key and its weeks. */
  datatype Group = Group(key: string, weeks: seq<Week>)

  /** Index of the first calendar week of month `key` (`|weeks|` when none). */
  function FirstOf(weeks: seq<Week>, key: string): nat {
    match Lists.FindIndex(weeks, InMonth(key))
    case Some(n) => n
    case None => |weeks|
  }

  /** Number of weeks held by all groups together. */
  function TotalWeeks(groups: seq<Group>): nat {
    if |groups| == 0 then 0 else |groups[0].weeks| + TotalWeeks(groups[1..])
  }

  predicate DistinctKeys(groups: seq<Group>) {
    forall i, j :: 0 <= i < j < |groups| ==> groups[i].key != groups[j].key
  }

  /** Each group holds exactly the weeks of its month, in calendar order. */
  predicate Matches(groups: seq<Group>, weeks: seq<Week>) {
    forall i :: 0 <= i < |groups| ==>
      |groups[i].weeks| > 0 && groups[i].weeks == Lists.Filter(weeks, InMonth(groups[i].key))
  }

  /** Some group has month `key`. */
  predicate HasGroup(groups: seq<Group>, key: string) {
    exists i :: 0 <= i < |groups| && groups[i].key == key
  }

  predicate Covers(groups: seq<Group>, weeks: seq<Week>) {
    forall j :: 0 <= j < |weeks| ==> HasGroup(groups, MonthKey(weeks[j]))
  }

  /** Groups come in the order their month first appears in the calendar. */
  predicate FirstOrdered(groups: seq<Group>, weeks: seq<Week>) {
    forall i, j :: 0 <= i < j < |groups| ==> FirstOf(weeks, groups[i].key) < FirstOf(weeks, groups[j].key)
  }

  /** `groups` is the month grouping of `weeks`. */
  predicate Grouped(groups: seq<Group>, weeks: seq<Week>) {
    DistinctKeys(groups) && Matches(groups, weeks) && Covers(groups, weeks) && FirstOrdered(groups, weeks)
  }

  /** One step of the `forEach`: push the week onto its month's group,
      creating the group at the end when the month is new. */
  function AddWeek(groups: seq<Group>, w: Week): seq<Group> {
    match Lists.FindIndex(groups, (g: Group) => g.key == MonthKey(w))
    case Some(i) => groups[i := Group(groups[i].key, groups[i].weeks + [w])]
    case None => groups + [Group(MonthKey(w), [w])]
  }

  lemma FilterSnoc(ws: seq<Week>, w: Week, key: string)
    ensures Lists.Filter(ws + [w], InMonth(key)) ==
            Lists.Filter(ws, InMonth(key)) + (if MonthKey(w) == key then [w] else [])
  {
    Lists.FilterAppend(ws, [w], InMonth(key));
    assert [w][1..] == [];
  }

  /** A month that already occurs keeps its first index when a week is added. */
  lemma FirstOfSnoc(ws: seq<Week>, w: Week, key: string, j: nat)
    requires j < |ws| && MonthKey(ws[j]) == key
    ensures FirstOf(ws + [w], key) == FirstOf(ws, key) < |ws|
  {
    match Lists.FindIndex(ws, InMonth(key))
    case Some(n) =>
      Lists.FindIndexIsFirst(ws + [w], InMonth(key), n);
  }

  /** The month of the last week first occurs at the end when it is new. */
  lemma FirstOfNew(ws: seq<Week>, w: Week)
    requires forall j :: 0 <= j < |ws| ==> MonthKey(ws[j]) != MonthKey(w)
    ensures FirstOf(ws + [w], MonthKey(w)) == |ws|
  {
    Lists.FindIndexIsFirst(ws + [w], InMonth(MonthKey(w)), |ws|);
  }

  /** A group's month occurs in the calendar. */
  lemma GroupKeyOccurs(groups: seq<Group>, ws: seq<Week>, i: nat) returns (j: nat)
    requires Matches(groups, ws) && i < |groups|
    ensures j < |ws| && MonthKey(ws[j]) == groups[i].key
  {
    var x := groups[i].weeks[0];
    assert x in ws && InMonth(groups[i].key)(x);
    j :| 0 <= j < |ws| && ws[j] == x;
  }

  lemma {:induction false} TotalWeeksAppend(groups: seq<Group>, g: Group)
    ensures TotalWeeks(groups + [g]) == TotalWeeks(groups) + |g.weeks|
    decreases |groups|
  {
    if |groups| > 0 {
      assert (groups + [g])[1..] == groups[1..] + [g];
      TotalWeeksAppend(groups[1..], g);
    }
  }

  lemma {:induction false} TotalWeeksUpdate(groups: seq<Group>, i: nat, g: Group)
    requires i < |groups|
    ensures TotalWeeks(groups[i := g]) + |groups[i].weeks| == TotalWeeks(groups) + |g.weeks|
    decreases i
  {
    if i > 0 {
      assert groups[i := g][1..] == groups[1..][i - 1 := g];
      TotalWeeksUpdate(groups[1..], i - 1, g);
    }
  }

  /** The groups after adding a week of a month that already has group `i`. */
  function Extended(groups: seq<Group>, i: nat, w: Week): seq<Group>
    requires i < |groups|
  {
    groups[i := Group(groups[i].key, groups[i].weeks + [w])]
  }

  lemma ExtendedMatches(groups: seq<Group>, ws: seq<Week>, w: Week, i: nat)
    requires DistinctKeys(groups) && Matches(groups, ws)
    requires i < |groups| && groups[i].key == MonthKey(w)
    ensures Matches(Extended(groups, i, w), ws + [w])
  {
    var r := Extended(groups, i, w);
    forall m | 0 <= m < |r|
      ensures |r[m].weeks| > 0 && r[m].weeks == Lists.Filter(ws + [w], InMonth(r[m].key))
    {
      FilterSnoc(ws, w, groups[m].key);
    }
  }

  lemma ExtendedCovers(groups: seq<Group>, ws: seq<Week>, w: Week, i: nat)
    requires Covers(groups, ws)
    requires i < |groups| && groups[i].key == MonthKey(w)
    ensures Covers(Extended(groups, i, w), ws + [w])
  {
    var r := Extended(groups, i, w);
    var ws' := ws + [w];
    forall j | 0 <= j < |ws'|
      ensures HasGroup(r, MonthKey(ws'[j]))
    {
      if j < |ws| {
        var m :| 0 <= m < |groups| && groups[m].key == MonthKey(ws[j]);
        assert r[m].key == MonthKey(ws'[j]);
      } else {
        assert r[i].key == MonthKey(ws'[j]);
      }
    }
  }

  lemma ExtendedFirstOrdered(groups: seq<Group>, ws: seq<Week>, w: Week, i: nat)
    requires Matches(groups, ws) && FirstOrdered(groups, ws)
    requires i < |groups|
    ensures FirstOrdered(Extended(groups, i, w), ws + [w])
  {
    var r := Extended(groups, i, w);
    forall m | 0 <= m < |r|
      ensures FirstOf(ws + [w], r[m].key) == FirstOf(ws, groups[m].key)
    {
      var j := GroupKeyOccurs(groups, ws, m);
      FirstOfSnoc(ws, w, groups[m].key, j);
    }
  }

  /** Adding a week of a month that already has group `i`. */
  lemma AddToGroup(groups: seq<Group>, ws: seq<Week>, w: Week, i: nat)
    requires Grouped(groups, ws)
    requires i < |groups| && groups[i].key == MonthKey(w)
    ensures Grouped(Extended(groups, i, w), ws + [w])
    ensures TotalWeeks(Extended(groups, i, w)) == TotalWeeks(groups) + 1
  {
    var r := Extended(groups, i, w);
    TotalWeeksUpdate(groups, i, r[i]);
    ExtendedDistinct(groups, i, w);
    ExtendedMatches(groups, ws, w, i);
    ExtendedCovers(groups, ws, w, i);
    ExtendedFirstOrdered(groups, ws, w, i);
  }

  lemma ExtendedDistinct(groups: seq<Group>, i: nat, w: Week)
    requires DistinctKeys(groups) && i < |groups|
    ensures DistinctKeys(Extended(groups, i, w))
  {
    var r := Extended(groups, i, w);
    assert forall m :: 0 <= m < |r| ==> r[m].key == groups[m].key;
  }

  /** The month of `w` is not among the calendar's months so far. */
  lemma NewMonthAbsent(groups: seq<Group>, ws: seq<Week>, w: Week)
    requires Covers(groups, ws)
    requires forall m :: 0 <= m < |groups| ==> groups[m].key != MonthKey(w)
    ensures forall j :: 0 <= j < |ws| ==> MonthKey(ws[j]) != MonthKey(w)
  {
    forall j | 0 <= j < |ws|
      ensures MonthKey(ws[j]) != MonthKey(w)
    {
      var m :| 0 <= m < |groups| && groups[m].key == MonthKey(ws[j]);
    }
  }

  lemma AppendedMatches(groups: seq<Group>, ws: seq<Week>, w: Week)
    requires Matches(groups, ws)
    requires forall m :: 0 <= m < |groups| ==> groups[m].key != MonthKey(w)
    requires forall j :: 0 <= j < |ws| ==> MonthKey(ws[j]) != MonthKey(w)
    ensures Matches(groups + [Group(MonthKey(w), [w])], ws + [w])
  {
    var r := groups + [Group(MonthKey(w), [w])];
    forall m | 0 <= m < |r|
      ensures |r[m].weeks| > 0 && r[m].weeks == Lists.Filter(ws + [w], InMonth(r[m].key))
    {
      FilterSnoc(ws, w, r[m].key);
    }
  }

  lemma AppendedCovers(groups: seq<Group>, ws: seq<Week>, w: Week)
    requires Covers(groups, ws)
    ensures Covers(groups + [Group(MonthKey(w), [w])], ws + [w])
  {
    var r := groups + [Group(MonthKey(w), [w])];
    var ws' := ws + [w];
    forall j | 0 <= j < |ws'|
      ensures HasGroup(r, MonthKey(ws'[j]))
    {
      if j < |ws| {
        var m :| 0 <= m < |groups| && groups[m].key == MonthKey(ws[j]);
        assert r[m].key == MonthKey(ws'[j]);
      } else {
        assert r[|groups|].key == MonthKey(ws'[j]);
      }
    }
  }

  lemma AppendedFirstOrdered(groups: seq<Group>, ws: seq<Week>, w: Week)
    requires Matches(groups, ws) && FirstOrdered(groups, ws)
    requires forall j :: 0 <= j < |ws| ==> MonthKey(ws[j]) != MonthKey(w)
    ensures FirstOrdered(groups + [Group(MonthKey(w), [w])], ws + [w])
  {
    var r := groups + [Group(MonthKey(w), [w])];
    FirstOfNew(ws, w);
    forall m | 0 <= m < |groups|
      ensures FirstOf(ws + [w], r[m].key) == FirstOf(ws, groups[m].key) < |ws|
    {
      var j := GroupKeyOccurs(groups, ws, m);
      FirstOfSnoc(ws, w, groups[m].key, j);
    }
  }

  /** Adding a week whose month has no group yet. */
  lemma AddNewGroup(groups: seq<Group>, ws: seq<Week>, w: Week)
    requires Grouped(groups, ws)
    requires forall m :: 0 <= m < |groups| ==> groups[m].key != MonthKey(w)
    ensures Grouped(groups + [Group(MonthKey(w), [w])], ws + [w])
    ensures TotalWeeks(groups + [Group(MonthKey(w), [w])]) == TotalWeeks(groups) + 1
  {
    TotalWeeksAppend(groups, Group(MonthKey(w), [w]));
    NewMonthAbsent(groups, ws, w);
    AppendedMatches(groups, ws, w);
    AppendedCovers(groups, ws, w);
    AppendedFirstOrdered(groups, ws, w);
  }

  /** Adding one week keeps the grouping invariant and the week count. */
  lemma AddWeekKeepsGrouped(groups: seq<Group>, ws: seq<Week>, w: Week)
    requires Grouped(groups, ws)
    ensures Grouped(AddWeek(groups, w), ws + [w])
    ensures TotalWeeks(AddWeek(groups, w)) == TotalWeeks(groups) + 1
  {
    match Lists.FindIndex(groups, (g: Group) => g.key == MonthKey(w))
    case Some(i) => AddToGroup(groups, ws, w, i);
    case None => AddNewGroup(groups, ws, w);
  }

  /** `monthGroups` after the whole `forEach`: the month grouping of the
      calendar, holding every week exactly once. */
  function GroupWeeks(weeks: seq<Week>): (r: seq<Group>)
    ensures Grouped(r, weeks)
    ensures TotalWeeks(r) == |weeks|
    decreases |weeks|
  {
    if |weeks| == 0 then []
    else
      var init := weeks[..|weeks| - 1];
      var w := weeks[|weeks| - 1];
      assert weeks == init + [w];
      AddWeekKeepsGrouped(GroupWeeks(init), init, w);
      AddWeek(GroupWeeks(init), w)
  }

  function HeaderOf(m: Metric): string {
    match m
    case SalesUnits => "Sales Units"
    case SalesDollars => "Sales Dollars"
    case GmDollars => "GM Dollars"
    case GmPercentage => "GM %"
  }

  /** The four cells under a week header; only sales units are editable. */
  function WeekLeaves(w: Week): seq<Leaf> {
    seq(|AllMetrics|, k requires 0 <= k < |AllMetrics| =>
      Leaf(FieldName(w.id, AllMetrics[k]), HeaderOf(AllMetrics[k]), AllMetrics[k] == SalesUnits))
  }

  function WeekColumns(ws: seq<Week>): seq<WeekColumn> {
    seq(|ws|, j requires 0 <= j < |ws| => WeekColumn(ws[j].weekLabel, WeekLeaves(ws[j])))
  }

  function MonthColumns(groups: seq<Group>): seq<MonthColumn> {
    seq(|groups|, i requires 0 <= i < |groups| => MonthColumn(groups[i].key, WeekColumns(groups[i].weeks)))
  }

  /** Distinct month keys give distinct month headers. */
  lemma MonthColumnsDistinct(g: seq<Group>)
    requires DistinctKeys(g)
    ensures forall i, j :: 0 <= i < j < |MonthColumns(g)| ==>
      MonthColumns(g)[i].headerName != MonthColumns(g)[j].headerName
  {
    assert forall i :: 0 <= i < |g| ==> MonthColumns(g)[i].headerName == g[i].key;
  }

  /** Some month header is `key`. */
  predicate HasHeader(cols: seq<MonthColumn>, key: string) {
    exists i :: 0 <= i < |cols| && cols[i].headerName == key
  }

  /** Every week's month has a header when the groups cover the calendar. */
  lemma MonthColumnsCover(g: seq<Group>, weeks: seq<Week>)
    requires Covers(g, weeks)
    ensures forall j :: 0 <= j < |weeks| ==> HasHeader(MonthColumns(g), MonthKey(weeks[j]))
  {
    forall j | 0 <= j < |weeks|
      ensures HasHeader(MonthColumns(g), MonthKey(weeks[j]))
    {
      assert HasGroup(g, MonthKey(weeks[j]));
      var i :| 0 <= i < |g| && g[i].key == MonthKey(weeks[j]);
      assert MonthColumns(g)[i].headerName == MonthKey(weeks[j]);
    }
  }

  /** Groups holding exactly their month's weeks give month headers holding
      exactly those weeks. */
  lemma MonthColumnsChildren(g: seq<Group>, weeks: seq<Week>)
    requires Matches(g, weeks)
    ensures forall i :: 0 <= i < |MonthColumns(g)| ==>
      MonthColumns(g)[i].children == WeekColumns(Lists.Filter(weeks, InMonth(MonthColumns(g)[i].headerName)))
  {
    forall i | 0 <= i < |MonthColumns(g)|
      ensures MonthColumns(g)[i].children == WeekColumns(Lists.Filter(weeks, InMonth(MonthColumns(g)[i].headerName)))
    {
      assert MonthColumns(g)[i] == MonthColumn(g[i].key, WeekColumns(g[i].weeks));
      assert g[i].weeks == Lists.Filter(weeks, InMonth(g[i].key));
    }
  }

  /** `columnDefs`: the store and SKU columns, then one header per distinct
      month of the calendar, each holding exactly that month's weeks in
      calendar order. */
  function ColumnDefs(weeks: seq<Week>): (c: Columns)
    ensures |c.base| == 2 && c.base[0].field == "store" && c.base[1].field == "sku"
    ensures forall i, j :: 0 <= i < j < |c.months| ==> c.months[i].headerName != c.months[j].headerName
    ensures forall j :: 0 <= j < |weeks| ==> HasHeader(c.months, MonthKey(weeks[j]))
    ensures forall i :: 0 <= i < |c.months| ==>
      c.months[i].children == WeekColumns(Lists.Filter(weeks, InMonth(c.months[i].headerName)))
  {
    var g := GroupWeeks(weeks);
    MonthColumnsDistinct(g);
    MonthColumnsCover(g, weeks);
    MonthColumnsChildren(g, weeks);
    Columns([BaseColumn("store", "Store"), BaseColumn("sku", "SKU")], MonthColumns(g))
  }

  /** Month column `i` is group `i` of the month grouping. */
  lemma MonthColumnsShape(weeks: seq<Week>)
    ensures var c := ColumnDefs(weeks); var g := GroupWeeks(weeks);
      && |c.base| == 2 && c.base[0].field == "store" && c.base[1].field == "sku"
      && |c.months| == |g|
      && forall i :: 0 <= i < |g| ==>
           c.months[i].headerName == g[i].key && c.months[i].children == WeekColumns(g[i].weeks)
  {
  }

  /** One header per distinct month, in order of first appearance, and
      every calendar week's month has a header. */
  lemma MonthHeaders(weeks: seq<Week>)
    ensures var c := ColumnDefs(weeks);
      && (forall i, j :: 0 <= i < j < |c.months| ==> c.months[i].headerName != c.months[j].headerName)
      && (forall j :: 0 <= j < |weeks| ==> HasHeader(c.months, MonthKey(weeks[j])))
      && (forall i, j :: 0 <= i < j < |c.months| ==>
            FirstOf(weeks, c.months[i].headerName) < FirstOf(weeks, c.months[j].headerName))
  {
    MonthColumnsShape(weeks);
  }

  /** Each week's cells are named after the week id and the metric, in the
      order units, dollars, margin dollars, margin percentage. */
  lemma WeekLeafFields(w: Week)
    ensures |WeekLeaves(w)| == 4
    ensures forall k :: 0 <= k < 4 ==> WeekLeaves(w)[k].field == FieldName(w.id, AllMetrics[k])
    ensures forall k :: 0 <= k < 4 ==> (WeekLeaves(w)[k].editable <==> k == 0)
    ensures WeekLeaves(w)[0].field == w.id + "_salesUnits"
  {
  }
}
