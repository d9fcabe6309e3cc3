/** Editing a sales-units cell of the planning grid (`valueParser` and
    `onCellValueChanged` in src/components/Planning/PlanningGrid.tsx): the
    edited row's derived cells are recomputed, the fact is upserted into the
    reducer state, and the same upsert is saved. */
module GridEdit {
  import opened Wrappers
  import opened JsText
  import opened Margin
  import opened Records
  import opened GridFields
  import opened GridRows
  import opened PlanningSlice

  /** What an edit leaves behind: the row, the reducer's facts and the list
      handed to storage (`None` when nothing is saved). */
  datatype EditResult = EditResult(row: GridRow, planningData: seq<Fact>, saved: Option<seq<Fact>>)

  /** `Number(newValue)` as the cell's value, with `|| 0` applied: text that
      is not a number ends up as 0. */
  function ParsedUnits(text: string): (u: real)
    ensures NumberOf(text).Finite? ==> u == NumberOf(text).value
    ensures NumberOf(text).NotANumber? ==> u == 0.0
  {
    OrZero(NumberOf(text))
  }

  /** `data[fieldName] || 0`. */
  function CellOrZero(cells: map<string, real>, field: string): (u: real)
    ensures field in cells ==> u == cells[field]
    ensures field !in cells ==> u == 0.0
  {
    if field in cells then cells[field] else 0.0
  }

  /** The three cells the handler recomputes. */
  function DerivedFields(weekId: string): set<string> {
    {FieldName(weekId, SalesDollars), FieldName(weekId, GmDollars), FieldName(weekId, GmPercentage)}
  }

  /** The three assignments `data[`${weekId}_...`] = ...`. */
  function WriteDerived(cells: map<string, real>, weekId: string, units: real, sku: Sku): map<string, real> {
    cells[FieldName(weekId, SalesDollars) := CellValue(SalesDollars, units, sku.price, sku.cost)]
         [FieldName(weekId, GmDollars) := CellValue(GmDollars, units, sku.price, sku.cost)]
         [FieldName(weekId, GmPercentage) := CellValue(GmPercentage, units, sku.price, sku.cost)]
  }

  lemma WriteDerivedKeys(cells: map<string, real>, weekId: string, units: real, sku: Sku)
    ensures WriteDerived(cells, weekId, units, sku).Keys == cells.Keys + DerivedFields(weekId)
  {
  }

  lemma WriteDerivedValues(cells: map<string, real>, weekId: string, units: real, sku: Sku, m: Metric)
    requires m != SalesUnits
    ensures WriteDerived(cells, weekId, units, sku)[FieldName(weekId, m)] == CellValue(m, units, sku.price, sku.cost)
  {
    WeekFieldsDistinct(weekId);
  }

  lemma WriteDerivedKeepsOthers(cells: map<string, real>, weekId: string, units: real, sku: Sku, k: string)
    requires k in cells && k !in DerivedFields(weekId)
    ensures WriteDerived(cells, weekId, units, sku)[k] == cells[k]
  {
  }

  /** `onCellValueChanged` on the row as the grid holds it after the edit.
      Only sales-units fields are handled, and only when the row's SKU is
      known: then the three derived cells of the week named before the first
      underscore are recomputed from the cell's units, and the fact for
      (row store, row SKU, week) is upserted into the reducer state and
      into the saved list. */
  function OnCellValueChanged(row: GridRow, field: string, skus: seq<Sku>, facts: seq<Fact>): (res: EditResult)
    ensures !IsSalesUnitsField(field) ==> res == EditResult(row, facts, None)
    ensures FindSku(skus, row.sku).None? ==> res == EditResult(row, facts, None)
    ensures IsSalesUnitsField(field) && FindSku(skus, row.sku).Some? ==>
      var sku := FindSku(skus, row.sku).value;
      var w := WeekIdOf(field);
      var u := CellOrZero(row.cells, field);
      && res.planningData == Upsert(facts, Fact(row.store, row.sku, w, u))
      && res.saved == Some(res.planningData)
      && res.row.store == row.store && res.row.sku == row.sku
      && res.row.storeLabel == row.storeLabel && res.row.skuLabel == row.skuLabel
      && res.row.cells.Keys == row.cells.Keys + DerivedFields(w)
      && (forall k :: k in row.cells && k !in DerivedFields(w) ==> res.row.cells[k] == row.cells[k])
      && (forall m :: m != SalesUnits ==>
            res.row.cells[FieldName(w, m)] == CellValue(m, u, sku.price, sku.cost))
  {
    if !IsSalesUnitsField(field) then EditResult(row, facts, None)
    else match FindSku(skus, row.sku)
      case None => EditResult(row, facts, None)
      case Some(sku) =>
        var w := WeekIdOf(field);
        var u := CellOrZero(row.cells, field);
        var cells := WriteDerived(row.cells, w, u, sku);
        WriteDerivedKeys(row.cells, w, u, sku);
        assert forall m :: m != SalesUnits ==> cells[FieldName(w, m)] == CellValue(m, u, sku.price, sku.cost) by {
          forall m | m != SalesUnits
            ensures cells[FieldName(w, m)] == CellValue(m, u, sku.price, sku.cost)
          {
            WriteDerivedValues(row.cells, w, u, sku, m);
          }
        }
        var planned := Upsert(facts, Fact(row.store, row.sku, w, u));
        EditResult(row.(cells := cells), planned, Some(planned))
  }

  /** The edit as a whole: the parsed text is stored in the edited cell,
      then the handler runs. */
  function CommitEdit(row: GridRow, field: string, text: string, skus: seq<Sku>, facts: seq<Fact>): (res: EditResult)
    ensures IsSalesUnitsField(field) && FindSku(skus, row.sku).Some? ==>
      res.planningData == Upsert(facts, Fact(row.store, row.sku, WeekIdOf(field), ParsedUnits(text)))
    ensures FindSku(skus, row.sku).None? ==> res.planningData == facts && res.saved.None?
  {
    OnCellValueChanged(row.(cells := row.cells[field := ParsedUnits(text)]), field, skus, facts)
  }

  /** The list saved to storage: a copy of the facts with the first fact of
      the same (store, SKU, week) replaced, or the new fact appended. */
  method SavedPlanningData(facts: seq<Fact>, f: Fact) returns (saved: seq<Fact>)
    ensures saved == Upsert(facts, f)
  {
    var i := 0;
    while i < |facts| && KeyOf(facts[i]) != KeyOf(f)
      invariant 0 <= i <= |facts|
      invariant forall j :: 0 <= j < i ==> KeyOf(facts[j]) != KeyOf(f)
    {
      i := i + 1;
    }
    if i < |facts| {
      saved := facts[i := f];
      UpsertReplacesFirstMatch(facts, f, i);
    } else {
      saved := facts + [f];
      UpsertAppendsNewKey(facts, f);
    }
  }

  /** After an edit of week `w`, each of its cells holds its metric for the
      new units. */
  lemma EditSameWeek(old0: map<string, real>, w: string, u: real, sku: Sku, m: Metric)
    ensures var cells := WriteDerived(old0[FieldName(w, SalesUnits) := u], w, u, sku);
      FieldName(w, m) in cells && cells[FieldName(w, m)] == CellValue(m, u, sku.price, sku.cost)
  {
    var old1 := old0[FieldName(w, SalesUnits) := u];
    WriteDerivedKeys(old1, w, u, sku);
    if m == SalesUnits {
      WeekFieldsDistinct(w);
      WriteDerivedKeepsOthers(old1, w, u, sku, FieldName(w, SalesUnits));
    } else {
      WriteDerivedValues(old1, w, u, sku, m);
    }
  }

  /** Cells of other weeks keep their values. */
  lemma EditOtherWeek(old0: map<string, real>, w: string, u: real, sku: Sku, k: string)
    requires k in old0 && k !in WeekFields(w)
    ensures var cells := WriteDerived(old0[FieldName(w, SalesUnits) := u], w, u, sku);
      k in cells && cells[k] == old0[k]
  {
    var old1 := old0[FieldName(w, SalesUnits) := u];
    WriteDerivedKeys(old1, w, u, sku);
    WriteDerivedKeepsOthers(old1, w, u, sku, k);
  }

  /** The edited row and the upserted facts agree on every cell of the row. */
  lemma EditedCell(store: Store, sku: Sku, weeks: seq<Week>, facts: seq<Fact>, w: string, u: real, i: nat, m: Metric)
    requires i < |weeks|
    ensures var cells := WriteDerived(WeekCells(weeks, facts, store.id, sku)[FieldName(w, SalesUnits) := u], w, u, sku);
      var k := FieldName(weeks[i].id, m);
      && k in cells
      && cells[k] == CellValue(m, UnitsFor(Upsert(facts, Fact(store.id, sku.id, w, u)),
                                           Key(store.id, sku.id, weeks[i].id)), sku.price, sku.cost)
  {
    var old0 := WeekCells(weeks, facts, store.id, sku);
    if weeks[i].id == w {
      EditSameWeek(old0, w, u, sku, m);
      UpsertThenLookup(facts, Fact(store.id, sku.id, w, u));
    } else {
      var k := FieldName(weeks[i].id, m);
      WeekCellsValues(weeks, facts, store.id, sku, i, m);
      assert k !in WeekFields(w) by {
        forall m' ensures k != FieldName(w, m') {
          FieldNamesDiffer(weeks[i].id, m, w, m');
        }
      }
      EditOtherWeek(old0, w, u, sku, k);
      UpsertKeepsOtherLookups(facts, Fact(store.id, sku.id, w, u), Key(store.id, sku.id, weeks[i].id));
    }
  }

  /** The edited row has a cell exactly where a rebuilt row has one. */
  lemma EditedKeys(store: Store, sku: Sku, weeks: seq<Week>, facts: seq<Fact>, planned: seq<Fact>,
                   j: nat, u: real, k: string)
    requires j < |weeks|
    ensures var w := weeks[j].id;
      var cells := WriteDerived(WeekCells(weeks, facts, store.id, sku)[FieldName(w, SalesUnits) := u], w, u, sku);
      k in cells <==> k in WeekCells(weeks, planned, store.id, sku)
  {
    var w := weeks[j].id;
    var old0 := WeekCells(weeks, facts, store.id, sku);
    WriteDerivedKeys(old0[FieldName(w, SalesUnits) := u], w, u, sku);
    WeekCellsKeys(weeks, facts, store.id, sku, k);
    WeekCellsKeys(weeks, planned, store.id, sku, k);
    if k in WeekFields(w) {
      var m :| k == FieldName(w, m);
      assert k == FieldName(weeks[j].id, m);
    }
  }

  /** Editing the sales units of a week whose id has no underscore, in a row
      whose SKU is known, leaves exactly the row that rebuilding the grid
      from the upserted facts would produce, and saves those facts. */
  lemma EditMatchesRebuild(store: Store, sku: Sku, weeks: seq<Week>, facts: seq<Fact>, skus: seq<Sku>,
                           j: nat, text: string)
    requires j < |weeks|
    requires forall c :: 0 <= c < |weeks[j].id| ==> weeks[j].id[c] != '_'
    requires FindSku(skus, sku.id) == Some(sku)
    ensures var row := MakeRow(store, sku, weeks, facts);
      var res := CommitEdit(row, FieldName(weeks[j].id, SalesUnits), text, skus, facts);
      var planned := Upsert(facts, Fact(store.id, sku.id, weeks[j].id, ParsedUnits(text)));
      && res.planningData == planned
      && res.saved == Some(planned)
      && res.row == MakeRow(store, sku, weeks, planned)
  {
    var w := weeks[j].id;
    var field := FieldName(w, SalesUnits);
    var u := ParsedUnits(text);
    var row := MakeRow(store, sku, weeks, facts);
    var row1 := row.(cells := row.cells[field := u]);
    var planned := Upsert(facts, Fact(store.id, sku.id, w, u));
    WeekIdRoundTrip(w);
    assert CellOrZero(row1.cells, field) == u;
    var res := OnCellValueChanged(row1, field, skus, facts);
    assert res == EditResult(row1.(cells := WriteDerived(row1.cells, w, u, sku)), planned, Some(planned));
    EditedCellsMatch(store, sku, weeks, facts, j, u);
  }

  /** The cells after the edit and its derived updates are the cells
      rebuilt from the upserted facts. */
  lemma EditedCellsMatch(store: Store, sku: Sku, weeks: seq<Week>, facts: seq<Fact>, j: nat, u: real)
    requires j < |weeks|
    requires forall c :: 0 <= c < |weeks[j].id| ==> weeks[j].id[c] != '_'
    ensures var w := weeks[j].id;
      var cells := MakeRow(store, sku, weeks, facts).cells[FieldName(w, SalesUnits) := u];
      WriteDerived(cells, w, u, sku) == WeekCells(weeks, Upsert(facts, Fact(store.id, sku.id, w, u)), store.id, sku)
  {
    var w := weeks[j].id;
    var cells := MakeRow(store, sku, weeks, facts).cells[FieldName(w, SalesUnits) := u];
    var planned := Upsert(facts, Fact(store.id, sku.id, w, u));
    var a := WriteDerived(cells, w, u, sku);
    var b := WeekCells(weeks, planned, store.id, sku);
    forall k
      ensures k in a <==> k in b
    {
      EditedKeys(store, sku, weeks, facts, planned, j, u, k);
    }
    forall k | k in b
      ensures a[k] == b[k]
    {
      WeekCellsKeys(weeks, planned, store.id, sku, k);
      var i, m :| 0 <= i < |weeks| && k == FieldName(weeks[i].id, m);
      EditedCell(store, sku, weeks, facts, w, u, i, m);
      WeekCellsValues(weeks, planned, store.id, sku, i, m);
    }
    assert a == b;
  }
}
