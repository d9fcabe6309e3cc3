/** The workbook-to-records mapping of `parseExcelFile`
    (src/services/excel.service.ts) after the workbook has been read: the
    four required sheets, the per-row field mapping with its defaults and
    number coercions, and the emptiness checks. */
module ExcelImport {
  import opened Wrappers
  import opened JsText
  import opened Records

  /** A cell as `sheet_to_json` hands it over: a number or a text. */
  datatype Cell = Num(n: real) | Str(s: string)

  /** One sheet row: header text to cell; empty cells are absent. */
  type SheetRow = map<string, Cell>

  /** Sheet name to its rows, in sheet order. */
  type Workbook = map<string, seq<SheetRow>>

  /** What a successful import hands back. */
  datatype ExcelData = ExcelData(stores: seq<Store>, skus: seq<Sku>, weeks: seq<Week>, planningData: seq<Fact>)

  /** The required sheets, in the order they are checked. */
  const RequiredSheets: seq<string> := ["Stores", "SKUs", "Calendar", "Planning"]

  function MissingSheetMessage(name: string): string {
    "Missing '" + name + "' sheet"
  }

  // ---- cell readers ---------------------------------------------------------

  /** `row[header] || ''` for a text column: the text of a text cell, and
      `''` when the cell is absent. */
  function Text(row: SheetRow, header: string): (t: string)
    ensures header in row && row[header].Str? ==> t == row[header].s
    ensures header !in row || row[header].Num? ==> t == ""
  {
    if header in row && row[header].Str? then row[header].s else ""
  }

  /** `row['Seq No.'] || 0`: the number of a number cell, 0 otherwise. */
  function SeqNo(row: SheetRow): (v: real)
    ensures "Seq No." in row && row["Seq No."].Num? ==> v == row["Seq No."].n
    ensures "Seq No." !in row || row["Seq No."].Str? ==> v == 0.0
  {
    if "Seq No." in row && row["Seq No."].Num? then row["Seq No."].n else 0.0
  }

  /** Price and cost: a text has every `$` and `,` removed and is trimmed,
      then its decimal prefix is read; a number is taken as is; an absent
      cell, or a text without a number in front, gives 0. */
  function Money(row: SheetRow, header: string): (v: real)
    ensures header !in row ==> v == 0.0
    ensures header in row && row[header].Num? ==> v == row[header].n
    ensures header in row && row[header].Str? ==>
      v == OrZero(ParseFloat(Trim(StripCurrency(row[header].s))))
  {
    if header !in row then 0.0
    else match row[header]
      case Num(n) => n
      case Str(s) => OrZero(ParseFloat(Trim(StripCurrency(s))))
  }

  /** Sales units: a text is read with `parseInt(_, 10)` as it stands, with
      no stripping; a number is taken as is; anything else, or NaN, gives 0. */
  function Units(row: SheetRow): (v: real)
    ensures "Sales Units" !in row ==> v == 0.0
    ensures "Sales Units" in row && row["Sales Units"].Num? ==> v == row["Sales Units"].n
    ensures "Sales Units" in row && row["Sales Units"].Str? ==>
      v == OrZero(ParseInt(row["Sales Units"].s))
  {
    if "Sales Units" !in row then 0.0
    else match row["Sales Units"]
      case Num(n) => n
      case Str(s) => OrZero(ParseInt(s))
  }

  // ---- row mappings ---------------------------------------------------------

  /** The columns each sheet's rows are read from. */
  const StoreColumns: set<string> := {"Seq No.", "ID", "Label", "City", "State"}
  const SkuColumns: set<string> := {"ID", "Label", "Class", "Department", "Price", "Cost"}
  const WeekColumns: set<string> := {"Seq No.", "Week", "Week Label", "Month", "Month Label"}
  const FactColumns: set<string> := {"Store", "SKU", "Week", "Sales Units"}

  /** A row of the Stores sheet; a row with no cells gives sequence number 0
      and empty texts. */
  function StoreOf(row: SheetRow): (r: Store)
    ensures row == map[] ==> r == Store(0.0, "", "", "", "")
  {
    Store(SeqNo(row), Text(row, "ID"), Text(row, "Label"), Text(row, "City"), Text(row, "State"))
  }

  /** A row of the SKUs sheet; a row with no cells gives empty texts and a
      price and cost of 0. */
  function SkuOf(row: SheetRow): (r: Sku)
    ensures row == map[] ==> r == Sku("", "", "", "", 0.0, 0.0)
  {
    Sku(Text(row, "ID"), Text(row, "Label"), Text(row, "Class"), Text(row, "Department"),
        Money(row, "Price"), Money(row, "Cost"))
  }

  /** A row of the Calendar sheet; a row with no cells gives sequence number
      0 and empty texts. */
  function WeekOf(row: SheetRow): (r: Week)
    ensures row == map[] ==> r == Week(0.0, "", "", "", "")
  {
    Week(SeqNo(row), Text(row, "Week"), Text(row, "Week Label"), Text(row, "Month"), Text(row, "Month Label"))
  }

  /** A row of the Planning sheet; a row with no cells gives empty ids and
      0 units. */
  function FactOf(row: SheetRow): (r: Fact)
    ensures row == map[] ==> r == Fact("", "", "", 0.0)
  {
    Fact(Text(row, "Store"), Text(row, "SKU"), Text(row, "Week"), Units(row))
  }

  /** A cell under any other header, such as an extra column of the sheet,
      changes nothing in the record read from the row. */
  lemma OtherColumnsIgnored(row: SheetRow, header: string, c: Cell)
    ensures header !in StoreColumns ==> StoreOf(row[header := c]) == StoreOf(row)
    ensures header !in SkuColumns ==> SkuOf(row[header := c]) == SkuOf(row)
    ensures header !in WeekColumns ==> WeekOf(row[header := c]) == WeekOf(row)
    ensures header !in FactColumns ==> FactOf(row[header := c]) == FactOf(row)
  {
  }

  /** `rows.map(f)`: one record per row, in row order. */
  function MapRows<T>(rows: seq<SheetRow>, f: SheetRow -> T): (r: seq<T>)
    ensures |r| == |rows|
    ensures forall i :: 0 <= i < |rows| ==> r[i] == f(rows[i])
  {
    seq(|rows|, i requires 0 <= i < |rows| => f(rows[i]))
  }

  // ---- the import -------------------------------------------------------------

  predicate HasAllSheets(wb: Workbook) {
    "Stores" in wb && "SKUs" in wb && "Calendar" in wb && "Planning" in wb
  }

  /** The whole mapping: the sheet checks in order, the four mappings, then
      the emptiness checks for stores, SKUs and weeks in that order. An
      empty Planning sheet is accepted, and rows with empty ids are kept. */
  function ParseWorkbook(wb: Workbook): (r: Result<ExcelData>)
    ensures r.Ok? <==> HasAllSheets(wb) && |wb["Stores"]| > 0 && |wb["SKUs"]| > 0 && |wb["Calendar"]| > 0
    ensures r.Ok? ==>
      && |r.value.stores| == |wb["Stores"]|
      && |r.value.skus| == |wb["SKUs"]|
      && |r.value.weeks| == |wb["Calendar"]|
      && |r.value.planningData| == |wb["Planning"]|
    ensures r.Ok? ==>
      && (forall i :: 0 <= i < |r.value.stores| ==> r.value.stores[i] == StoreOf(wb["Stores"][i]))
      && (forall i :: 0 <= i < |r.value.skus| ==> r.value.skus[i] == SkuOf(wb["SKUs"][i]))
      && (forall i :: 0 <= i < |r.value.weeks| ==> r.value.weeks[i] == WeekOf(wb["Calendar"][i]))
      && (forall i :: 0 <= i < |r.value.planningData| ==> r.value.planningData[i] == FactOf(wb["Planning"][i]))
    ensures HasAllSheets(wb) && |wb["Stores"]| == 0 ==> r == Err("No valid store data found")
    ensures HasAllSheets(wb) && |wb["Stores"]| > 0 && |wb["SKUs"]| == 0 ==> r == Err("No valid SKU data found")
    ensures HasAllSheets(wb) && |wb["Stores"]| > 0 && |wb["SKUs"]| > 0 && |wb["Calendar"]| == 0 ==>
      r == Err("No valid week data found")
  {
    if "Stores" !in wb then Err(MissingSheetMessage("Stores"))
    else if "SKUs" !in wb then Err(MissingSheetMessage("SKUs"))
    else if "Calendar" !in wb then Err(MissingSheetMessage("Calendar"))
    else if "Planning" !in wb then Err(MissingSheetMessage("Planning"))
    else
      var stores := MapRows(wb["Stores"], StoreOf);
      var skus := MapRows(wb["SKUs"], SkuOf);
      var weeks := MapRows(wb["Calendar"], WeekOf);
      var planningData := MapRows(wb["Planning"], FactOf);
      if |stores| == 0 then Err("No valid store data found")
      else if |skus| == 0 then Err("No valid SKU data found")
      else if |weeks| == 0 then Err("No valid week data found")
      else Ok(ExcelData(stores, skus, weeks, planningData))
  }

  /** The error names the first required sheet, in checking order, that
      the workbook lacks, whatever else the workbook holds. */
  lemma FirstMissingSheetReported(wb: Workbook, k: nat)
    requires k < |RequiredSheets|
    requires RequiredSheets[k] !in wb
    requires forall j :: 0 <= j < k ==> RequiredSheets[j] in wb
    ensures ParseWorkbook(wb) == Err(MissingSheetMessage(RequiredSheets[k]))
  {
    if k > 0 {
      assert RequiredSheets[0] in wb;
    }
    if k > 1 {
      assert RequiredSheets[1] in wb;
    }
    if k > 2 {
      assert RequiredSheets[2] in wb;
    }
  }

  // ---- round trips -------------------------------------------------------------

  /** The row a store would occupy in the Stores sheet. */
  function StoreRow(s: Store): SheetRow {
    map["Seq No." := Num(s.seqNo), "ID" := Str(s.id), "Label" := Str(s.storeLabel),
        "City" := Str(s.city), "State" := Str(s.state)]
  }

  function SkuRow(s: Sku): SheetRow {
    map["ID" := Str(s.id), "Label" := Str(s.skuLabel), "Class" := Str(s.skuClass),
        "Department" := Str(s.department), "Price" := Num(s.price), "Cost" := Num(s.cost)]
  }

  function WeekRow(w: Week): SheetRow {
    map["Seq No." := Num(w.seqNo), "Week" := Str(w.id), "Week Label" := Str(w.weekLabel),
        "Month" := Str(w.month), "Month Label" := Str(w.monthLabel)]
  }

  function FactRow(f: Fact): SheetRow {
    map["Store" := Str(f.store), "SKU" := Str(f.sku), "Week" := Str(f.week), "Sales Units" := Num(f.salesUnits)]
  }

  /** Writing a record as a row with text and number cells and importing
      it gives the record back. */
  lemma StoreRowRoundTrip(s: Store)
    ensures StoreOf(StoreRow(s)) == s
  {
  }

  lemma SkuRowRoundTrip(k: Sku)
    ensures SkuOf(SkuRow(k)) == k
  {
  }

  lemma WeekRowRoundTrip(w: Week)
    ensures WeekOf(WeekRow(w)) == w
  {
  }

  lemma FactRowRoundTrip(f: Fact)
    ensures FactOf(FactRow(f)) == f
  {
  }

  /** Importing a workbook written from records gives the records back, in
      order, provided stores, SKUs and weeks are not empty. */
  lemma WorkbookRoundTrip(data: ExcelData)
    requires |data.stores| > 0 && |data.skus| > 0 && |data.weeks| > 0
    ensures var wb := map["Stores" := seq(|data.stores|, i requires 0 <= i < |data.stores| => StoreRow(data.stores[i])),
                          "SKUs" := seq(|data.skus|, i requires 0 <= i < |data.skus| => SkuRow(data.skus[i])),
                          "Calendar" := seq(|data.weeks|, i requires 0 <= i < |data.weeks| => WeekRow(data.weeks[i])),
                          "Planning" := seq(|data.planningData|, i requires 0 <= i < |data.planningData| => FactRow(data.planningData[i]))];
      ParseWorkbook(wb) == Ok(data)
  {
    var wb := map["Stores" := seq(|data.stores|, i requires 0 <= i < |data.stores| => StoreRow(data.stores[i])),
                  "SKUs" := seq(|data.skus|, i requires 0 <= i < |data.skus| => SkuRow(data.skus[i])),
                  "Calendar" := seq(|data.weeks|, i requires 0 <= i < |data.weeks| => WeekRow(data.weeks[i])),
                  "Planning" := seq(|data.planningData|, i requires 0 <= i < |data.planningData| => FactRow(data.planningData[i]))];
    assert HasAllSheets(wb);
    assert |wb["Stores"]| > 0 && |wb["SKUs"]| > 0 && |wb["Calendar"]| > 0;
    var r := ParseWorkbook(wb);
    assert r.Ok?;
    forall i | 0 <= i < |data.stores| ensures r.value.stores[i] == data.stores[i] {
      StoreRowRoundTrip(data.stores[i]);
    }
    forall i | 0 <= i < |data.skus| ensures r.value.skus[i] == data.skus[i] {
      SkuRowRoundTrip(data.skus[i]);
    }
    forall i | 0 <= i < |data.weeks| ensures r.value.weeks[i] == data.weeks[i] {
      WeekRowRoundTrip(data.weeks[i]);
    }
    forall i | 0 <= i < |data.planningData| ensures r.value.planningData[i] == data.planningData[i] {
      FactRowRoundTrip(data.planningData[i]);
    }
    assert r.value.stores == data.stores;
    assert r.value.skus == data.skus;
    assert r.value.weeks == data.weeks;
    assert r.value.planningData == data.planningData;
  }

  // ---- number coercion -------------------------------------------------------

  /** Rendered digits hold no `$` or `,`. */
  lemma DigitsUnstripped(ds: string)
    requires AllDigits(ds)
    ensures StripCurrency(ds) == ds
  {
    assert forall i :: 0 <= i < |ds| ==> IsDigit(ds[i]);
  }

  /** Removing the currency sign from `$<digits>` leaves the digits. */
  lemma StripDollar(ds: string)
    requires AllDigits(ds)
    ensures StripCurrency("$" + ds) == ds
  {
    StripCurrencyAppend("$", ds);
    assert StripCurrency("$") == [];
    DigitsUnstripped(ds);
  }

  /** Digits carry no white space to trim. */
  lemma TrimDigits(ds: string)
    requires |ds| > 0 && AllDigits(ds)
    ensures Trim(ds) == ds
  {
    assert !IsWhite(ds[0]) && !IsWhite(ds[|ds| - 1]);
    TrimUnchanged(ds);
  }

  /** A price written as `$<digits>` is read as the digits alone. */
  lemma DollarTextDigits(ds: string)
    requires |ds| > 0 && AllDigits(ds)
    ensures Money(map["Price" := Str("$" + ds)], "Price") == OrZero(ParseFloat(ds))
  {
    var row := map["Price" := Str("$" + ds)];
    assert "Price" in row && row["Price"] == Str("$" + ds);
    StripDollar(ds);
    TrimDigits(ds);
  }

  /** A dollar amount written as `$<digits>` is read as that amount. */
  lemma DollarTextPrice(n: nat)
    ensures Money(map["Price" := Str("$" + ShowNat(n))], "Price") == n as real
  {
    DollarTextDigits(ShowNat(n));
    ParseFloatShowNat(n, []);
    assert ShowNat(n) + [] == ShowNat(n);
  }

  lemma FormattedPriceStripped()
    ensures StripCurrency("$1,234.50") == "1234.50"
  {
    assert "$1,234.50" == "$1," + "234.50";
    StrippedPieces();
  }

  lemma StrippedPieces()
    ensures StripCurrency("$1," + "234.50") == "1234.50"
  {
    SymbolsStripped();
    PlainDigitsKept();
    StripCurrencyAppend("$1,", "234.50");
  }

  lemma SymbolsStripped()
    ensures StripCurrency("$1,") == "1"
  {
    assert "$1,"[1..] == "1,";
    assert "1,"[1..] == ",";
  }

  lemma PlainDigitsKept()
    ensures StripCurrency("234.50") == "234.50"
  {
    var t := "234.50";
    assert forall i :: 0 <= i < |t| ==> t[i] != '$' && t[i] != ',';
  }

  lemma FormattedPriceText()
    ensures Trim(StripCurrency("$1,234.50")) == "1234.50"
  {
    FormattedPriceStripped();
    TrimUnchanged("1234.50");
  }

  lemma FormattedPriceDigits()
    ensures DigitRun("1234.50") == 4
    ensures NatValue("1234") == 1234
    ensures FracValue("50") == 0.5
  {
    var t := "1234.50";
    assert DigitRun(t[4..]) == 0;
    assert DigitRun(t[3..]) == 1;
    assert DigitRun(t[2..]) == 2;
    assert DigitRun(t[1..]) == 3;
    assert "12"[..1] == "1";
    assert "123"[..2] == "12";
    assert "1234"[..3] == "123";
    assert NatValue("1") == 1;
    assert NatValue("12") == 12;
    assert NatValue("123") == 123;
    assert "50"[1..] == "0";
    assert FracValue("0") == 0.0;
  }

  lemma FormattedPriceScan()
    ensures ScanDecimal("1234.50") == Some(Scan(1234.5, 7))
  {
    var t := "1234.50";
    FormattedPriceDigits();
    assert SignLength(t) == 0;
    assert t[0..] == t;
    assert t[..4] == "1234";
    assert HasPoint(t, 4);
    assert t[5..] == "50";
    assert DigitRun("50") == 2 by {
      assert "50"[1..] == "0";
      assert "0"[1..] == "";
    }
    assert "50"[..2] == "50";
    assert FractionDigits(t, 4) == "50";
  }

  /** Currency signs and thousands separators are dropped before a price
      is read: "$1,234.50" is 1234.5. */
  lemma FormattedPrice()
    ensures Money(map["Price" := Str("$1,234.50")], "Price") == 1234.5
  {
    var row := map["Price" := Str("$1,234.50")];
    assert "Price" in row && row["Price"] == Str("$1,234.50");
    FormattedPriceText();
    FormattedPriceScan();
    assert TrimStart("1234.50") == "1234.50";
  }

  /** A text that does not start with a number gives 0, as "N/A" does. */
  lemma NotANumberPriceIsZero()
    ensures Money(map["Price" := Str("N/A")], "Price") == 0.0
  {
    NotANumberText();
    NotANumberScan();
    assert TrimStart("N/A") == "N/A";
  }

  lemma NotANumberText()
    ensures Trim(StripCurrency("N/A")) == "N/A"
  {
    assert StripCurrency("N/A") == "N/A";
    TrimUnchanged("N/A");
  }

  lemma NotANumberScan()
    ensures ScanDecimal("N/A") == None
  {
    assert SignLength("N/A") == 0;
    assert "N/A"[0..] == "N/A";
    assert DigitRun("N/A") == 0;
    assert !HasPoint("N/A", 0);
  }

  /** Sales units are not stripped: a thousands separator ends the number,
      so "1,200" is read as 1. */
  lemma GroupedUnitsCutShort()
    ensures Units(map["Sales Units" := Str("1,200")]) == 1.0
  {
    assert ShowNat(1) == "1";
    assert "1,200" == ShowNat(1) + ",200";
    ParseIntShowNat(1, ",200");
  }

  /** A sales-units text holding a plain number is read as that number. */
  lemma UnitsText(n: nat)
    ensures Units(map["Sales Units" := Str(ShowNat(n))]) == n as real
  {
    ParseIntShowNat(n, []);
    assert ShowNat(n) + [] == ShowNat(n);
  }
}
