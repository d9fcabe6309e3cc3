/** The add-SKU dialog (src/components/SKUs/SKUForm.tsx): its own
    validation, which does not trim and reads amounts with `parseFloat`, and
    what a submit dispatches and saves. */
module SkuForm {
  import opened Wrappers
  import opened JsText
  import opened Records
  import opened SkuSlice
  import opened Validators

  /** The six text inputs of the dialog. */
  datatype SkuInput = SkuInput(id: string, skuLabel: string, className: string, department: string,
                               price: string, cost: string)

  /** `isNaN(parseFloat(x)) || parseFloat(x) < 0` on non-empty text. */
  predicate BadAmountText(x: string) {
    BadAmount(ParseFloat(x))
  }

  /** The message the dialog's `validateForm` records under a field, with
      the price and cost texts read as `price` and `cost`: only empty text
      is missing. */
  function FormMessage(f: SkuInput, skus: seq<Sku>, price: JsNum, cost: JsNum, k: Field): Option<string> {
    match k
    case Id =>
      if f.id == "" then Some("SKU ID is required")
      else When(exists j :: 0 <= j < |skus| && skus[j].id == f.id, "SKU ID must be unique")
    case Label => When(f.skuLabel == "", "SKU label is required")
    case ClassName => When(f.className == "", "Class is required")
    case Department => When(f.department == "", "Department is required")
    case Price =>
      if f.price == "" then Some("Price is required")
      else When(BadAmount(price), "Price must be a positive number")
    case Cost =>
      if f.cost == "" then Some("Cost is required")
      else When(BadAmount(cost), "Cost must be a positive number")
    case _ => None
  }

  /** The error map for amounts read as `price` and `cost`: only the six
      inputs can carry a message. */
  function ErrorsRead(f: SkuInput, skus: seq<Sku>, price: JsNum, cost: JsNum): (e: Errors)
    ensures e.Keys <= {Id, Label, ClassName, Department, Price, Cost}
  {
    Collect((k: Field) => FormMessage(f, skus, price, cost, k))
  }

  /** `validateForm`'s error map, which reads the amounts with `parseFloat`. */
  function FormErrors(f: SkuInput, skus: seq<Sku>): (e: Errors)
    ensures e.Keys <= {Id, Label, ClassName, Department, Price, Cost}
  {
    ErrorsRead(f, skus, ParseFloat(f.price), ParseFloat(f.cost))
  }

  /** The amount checks, whatever the amounts were read as. */
  lemma AmountsRead(f: SkuInput, skus: seq<Sku>, price: JsNum, cost: JsNum)
    ensures var e := ErrorsRead(f, skus, price, cost);
      && (Price in e <==> f.price == "" || BadAmount(price))
      && (f.price == "" ==> Price in e && e[Price] == "Price is required")
      && (f.price != "" && Price in e ==> e[Price] == "Price must be a positive number")
      && (Cost in e <==> f.cost == "" || BadAmount(cost))
      && (f.cost == "" ==> Cost in e && e[Cost] == "Cost is required")
      && (f.cost != "" && Cost in e ==> e[Cost] == "Cost must be a positive number")
  {
  }

  /** The id and text checks, whatever the amounts were read as. */
  lemma IdRead(f: SkuInput, skus: seq<Sku>, price: JsNum, cost: JsNum)
    ensures var e := ErrorsRead(f, skus, price, cost);
      && (Id in e <==> f.id == "" || exists j :: 0 <= j < |skus| && skus[j].id == f.id)
      && (f.id == "" ==> Id in e && e[Id] == "SKU ID is required")
      && (f.id != "" && Id in e ==> e[Id] == "SKU ID must be unique")
  {
  }

  /** The same for the label, class and department. */
  lemma TextRead(f: SkuInput, skus: seq<Sku>, price: JsNum, cost: JsNum)
    ensures var e := ErrorsRead(f, skus, price, cost);
      && (Label in e <==> f.skuLabel == "")
      && (ClassName in e <==> f.className == "")
      && (Department in e <==> f.department == "")
  {
  }

  /** No error means non-negative amounts and an unused id. */
  lemma ValidRead(f: SkuInput, skus: seq<Sku>, price: JsNum, cost: JsNum)
    requires |ErrorsRead(f, skus, price, cost)| == 0
    ensures price.Finite? && price.value >= 0.0 && cost.Finite? && cost.value >= 0.0
    ensures forall j :: 0 <= j < |skus| ==> skus[j].id != f.id
  {
    IdRead(f, skus, price, cost);
    AmountsRead(f, skus, price, cost);
  }

  /** The id must be non-empty and not used by any listed SKU. */
  lemma FormIdChecked(f: SkuInput, skus: seq<Sku>)
    ensures var e := FormErrors(f, skus);
      && (Id in e <==> f.id == "" || exists j :: 0 <= j < |skus| && skus[j].id == f.id)
      && (f.id == "" ==> Id in e && e[Id] == "SKU ID is required")
      && (f.id != "" && Id in e ==> e[Id] == "SKU ID must be unique")
  {
    IdRead(f, skus, ParseFloat(f.price), ParseFloat(f.cost));
  }

  /** Label, class and department must be non-empty; white space passes. */
  lemma FormTextChecked(f: SkuInput, skus: seq<Sku>)
    ensures var e := FormErrors(f, skus);
      && (Label in e <==> f.skuLabel == "")
      && (ClassName in e <==> f.className == "")
      && (Department in e <==> f.department == "")
  {
    TextRead(f, skus, ParseFloat(f.price), ParseFloat(f.cost));
  }

  /** The price must be non-empty and read by `parseFloat` as a
      non-negative number. */
  lemma FormPriceChecked(f: SkuInput, skus: seq<Sku>)
    ensures var e := FormErrors(f, skus);
      && (Price in e <==> f.price == "" || BadAmountText(f.price))
      && (f.price == "" ==> Price in e && e[Price] == "Price is required")
      && (f.price != "" && Price in e ==> e[Price] == "Price must be a positive number")
  {
    AmountsRead(f, skus, ParseFloat(f.price), ParseFloat(f.cost));
  }

  /** The same for the cost. */
  lemma FormCostChecked(f: SkuInput, skus: seq<Sku>)
    ensures var e := FormErrors(f, skus);
      && (Cost in e <==> f.cost == "" || BadAmountText(f.cost))
      && (f.cost == "" ==> Cost in e && e[Cost] == "Cost is required")
      && (f.cost != "" && Cost in e ==> e[Cost] == "Cost must be a positive number")
  {
    AmountsRead(f, skus, ParseFloat(f.price), ParseFloat(f.cost));
  }

  /** `validateForm()`. */
  function ValidateForm(f: SkuInput, skus: seq<Sku>): (ok: bool)
    ensures ok <==> FormErrors(f, skus) == map[]
    ensures ok ==> ParseFloat(f.price).Finite? && ParseFloat(f.price).value >= 0.0
    ensures ok ==> ParseFloat(f.cost).Finite? && ParseFloat(f.cost).value >= 0.0
    ensures ok ==> forall j :: 0 <= j < |skus| ==> skus[j].id != f.id
  {
    var e := FormErrors(f, skus);
    if |e| == 0 then
      ValidRead(f, skus, ParseFloat(f.price), ParseFloat(f.cost));
      true
    else
      assert e != map[];
      false
  }

  /** What a submit leaves behind: the reducer state and the saved list. */
  datatype Submitted = Submitted(state: SkuState, saved: Option<seq<Sku>>)

  /** `handleSubmit()`: a valid form builds a SKU from the parsed amounts,
      dispatches `addSKU` and saves the old list with it appended; the saved
      list is the reducer's new list. An invalid form does neither. */
  function HandleSubmit(s: SkuState, f: SkuInput): (o: Submitted)
    ensures !ValidateForm(f, s.skus) ==> o == Submitted(s, None)
    ensures ValidateForm(f, s.skus) ==>
      && |o.state.skus| == |s.skus| + 1
      && o.state.skus[..|s.skus|] == s.skus
      && o.state.skus[|s.skus|] == Sku(f.id, f.skuLabel, f.className, f.department,
                                       ParseFloat(f.price).value, ParseFloat(f.cost).value)
      && o.saved == Some(o.state.skus)
  {
    if ValidateForm(f, s.skus) then
      var added := Sku(f.id, f.skuLabel, f.className, f.department,
                       ParseFloat(f.price).value, ParseFloat(f.cost).value);
      var r := AddSku(s, added);
      assert r.skus == s.skus + [added];
      Submitted(r, Some(s.skus + [added]))
    else Submitted(s, None)
  }

  /** `parseFloat` reads a leading number, so trailing letters do not make a
      price invalid: "12abc" is accepted as 12. */
  lemma TrailingTextAccepted()
    ensures !BadAmountText("12abc") && ParseFloat("12abc") == Finite(12.0)
  {
    assert ShowNat(12) == "12";
    assert "12abc" == ShowNat(12) + "abc";
    ParseFloatShowNat(12, "abc");
  }
}
