/** The shared record validators (src/utils/validators.ts). Fields of a
    `Partial<...>` record are optional; every check on text is made after
    `trim`. */
module Validators {
  import opened Wrappers
  import opened JsText
  import opened Records

  /** The property names an error object can carry. */
  datatype Field = Id | Label | City | State | Class | ClassName | Department | Price | Cost | Username | Password

  /** The JavaScript property name of each field. */
  function PropertyName(f: Field): string {
    match f
    case Id => "id"
    case Label => "label"
    case City => "city"
    case State => "state"
    case Class => "class"
    case ClassName => "className"
    case Department => "department"
    case Price => "price"
    case Cost => "cost"
    case Username => "username"
    case Password => "password"
  }

  /** Error objects: messages keyed by field. */
  type Errors = map<Field, string>

  /** The `{ isValid, errors }` object. */
  datatype Report = Report(isValid: bool, errors: Errors)

  /** `{ isValid: Object.keys(errors).length === 0, errors }`. */
  function ReportOf(errors: Errors): (r: Report)
    ensures r.errors == errors
    ensures r.isValid <==> |errors| == 0
  {
    Report(|errors| == 0, errors)
  }

  const AllFields: set<Field> := {Id, Label, City, State, Class, ClassName, Department, Price, Cost, Username, Password}

  lemma EveryFieldListed(k: Field)
    ensures k in AllFields
  {
    match k
    case Id => case Label => case City => case State => case Class => case ClassName =>
    case Department => case Price => case Cost => case Username => case Password =>
  }

  /** The error object that holds, for every field, the message the checks
      produce for it, and nothing for the fields that pass. The checks of
      the source touch each field once, so the order of the checks does not
      matter. */
  function Collect(message: Field -> Option<string>): (e: Errors)
    ensures forall k :: k in e <==> message(k).Some?
    ensures forall k :: k in e ==> e[k] == message(k).value
  {
    forall k: Field ensures k in AllFields {
      EveryFieldListed(k);
    }
    map k | k in AllFields && message(k).Some? :: message(k).value
  }

  /** `if (failed) errors[field] = message`, seen from one field. */
  function When(failed: bool, message: string): Option<string> {
    if failed then Some(message) else None
  }

  /** `!x?.trim()`: the field is absent, or trimming leaves nothing, which
      happens exactly when it is white space only (`TrimEmptyIffBlank`). */
  predicate Blank(x: Option<string>) {
    x.None? || IsBlank(x.value)
  }

  /** A store record with every field optional (`Partial<Store>`). */
  datatype StoreDraft = StoreDraft(seqNo: Option<real>, id: Option<string>, storeLabel: Option<string>,
                                   city: Option<string>, state: Option<string>)

  /** Another store already has the draft's id under a different sequence
      number, so editing a store in place does not clash with itself. */
  predicate ClashesWith(d: StoreDraft, existing: seq<Store>) {
    exists j :: 0 <= j < |existing| && Some(existing[j].id) == d.id && Some(existing[j].seqNo) != d.seqNo
  }

  /** The message `validateStoreData` records under a field, if any. */
  function StoreMessage(d: StoreDraft, existing: seq<Store>, k: Field): Option<string> {
    match k
    case Id =>
      if Blank(d.id) then Some("Store ID is required")
      else When(ClashesWith(d, existing), "Store ID must be unique")
    case Label => When(Blank(d.storeLabel), "Store label is required")
    case City => When(Blank(d.city), "City is required")
    case State => When(Blank(d.state), "State is required")
    case _ => None
  }

  /** `validateStoreData(store, existingStores)`: only the four checked
      fields can carry a message, and the report is valid exactly when none
      does. */
  function ValidateStoreData(d: StoreDraft, existing: seq<Store>): (r: Report)
    ensures r.errors.Keys <= {Id, Label, City, State}
    ensures r.isValid <==> r.errors == map[]
  {
    ReportOf(Collect((k: Field) => StoreMessage(d, existing, k)))
  }

  /** The id is required, and must not be used by a store with another
      sequence number. */
  lemma StoreIdChecked(d: StoreDraft, existing: seq<Store>)
    ensures var e := ValidateStoreData(d, existing).errors;
      && (Id in e <==> Blank(d.id) || ClashesWith(d, existing))
      && (Blank(d.id) ==> Id in e && e[Id] == "Store ID is required")
      && (!Blank(d.id) && ClashesWith(d, existing) ==> Id in e && e[Id] == "Store ID must be unique")
  {
  }

  /** Label, city and state are each required, after trimming. */
  lemma StoreTextChecked(d: StoreDraft, existing: seq<Store>)
    ensures var e := ValidateStoreData(d, existing).errors;
      && (Label in e <==> Blank(d.storeLabel))
      && (City in e <==> Blank(d.city))
      && (State in e <==> Blank(d.state))
  {
  }

  /** A SKU record with every field optional (`Partial<SKU>`); an absent
      price or cost stands for `undefined` or `null`. */
  datatype SkuDraft = SkuDraft(id: Option<string>, skuLabel: Option<string>, skuClass: Option<string>,
                               department: Option<string>, price: Option<JsNum>, cost: Option<JsNum>)

  predicate TakenBy(id: Option<string>, existing: seq<Sku>) {
    exists j :: 0 <= j < |existing| && Some(existing[j].id) == id
  }

  /** `isNaN(Number(x)) || Number(x) < 0`. */
  predicate BadAmount(x: JsNum) {
    x.NotANumber? || x.value < 0.0
  }

  /** The message `validateSKUData` records under a field, if any. */
  function SkuMessage(d: SkuDraft, existing: seq<Sku>, k: Field): Option<string> {
    match k
    case Id =>
      if Blank(d.id) then Some("SKU ID is required")
      else When(TakenBy(d.id, existing), "SKU ID must be unique")
    case Label => When(Blank(d.skuLabel), "SKU label is required")
    case Class => When(Blank(d.skuClass), "Class is required")
    case Department => When(Blank(d.department), "Department is required")
    case Price =>
      if d.price.None? then Some("Price is required")
      else When(BadAmount(d.price.value), "Price must be a positive number")
    case Cost =>
      if d.cost.None? then Some("Cost is required")
      else When(BadAmount(d.cost.value), "Cost must be a positive number")
    case _ => None
  }

  /** `validateSKUData(sku, existingSKUs)`: only the six checked fields can
      carry a message, and the report is valid exactly when none does. */
  function ValidateSkuData(d: SkuDraft, existing: seq<Sku>): (r: Report)
    ensures r.errors.Keys <= {Id, Label, Class, Department, Price, Cost}
    ensures r.isValid <==> r.errors == map[]
  {
    ReportOf(Collect((k: Field) => SkuMessage(d, existing, k)))
  }

  /** The id is required and must not be used by any listed SKU. */
  lemma SkuIdChecked(d: SkuDraft, existing: seq<Sku>)
    ensures var e := ValidateSkuData(d, existing).errors;
      && (Id in e <==> Blank(d.id) || TakenBy(d.id, existing))
      && (Blank(d.id) ==> Id in e && e[Id] == "SKU ID is required")
      && (!Blank(d.id) && TakenBy(d.id, existing) ==> Id in e && e[Id] == "SKU ID must be unique")
  {
  }

  /** Label, class and department are each required, after trimming. */
  lemma SkuTextChecked(d: SkuDraft, existing: seq<Sku>)
    ensures var e := ValidateSkuData(d, existing).errors;
      && (Label in e <==> Blank(d.skuLabel))
      && (Class in e <==> Blank(d.skuClass))
      && (Department in e <==> Blank(d.department))
  {
    var message := (k: Field) => SkuMessage(d, existing, k);
    assert message(Label).Some? == Blank(d.skuLabel);
    assert message(Class).Some? == Blank(d.skuClass);
    assert message(Department).Some? == Blank(d.department);
  }

  /** Price and cost are required, and must be non-negative numbers. */
  lemma SkuAmountsChecked(d: SkuDraft, existing: seq<Sku>)
    ensures var e := ValidateSkuData(d, existing).errors;
      && (Price in e <==> d.price.None? || BadAmount(d.price.value))
      && (d.price.None? ==> Price in e && e[Price] == "Price is required")
      && (d.price.Some? && BadAmount(d.price.value) ==> Price in e && e[Price] == "Price must be a positive number")
      && (Cost in e <==> d.cost.None? || BadAmount(d.cost.value))
      && (d.cost.None? ==> Cost in e && e[Cost] == "Cost is required")
      && (d.cost.Some? && BadAmount(d.cost.value) ==> Cost in e && e[Cost] == "Cost must be a positive number")
  {
  }

  /** A price or cost of exactly zero is accepted. */
  lemma ZeroAmountAccepted(d: SkuDraft, existing: seq<Sku>)
    requires d.price == Some(Finite(0.0)) && d.cost == Some(Finite(0.0))
    ensures Price !in ValidateSkuData(d, existing).errors
    ensures Cost !in ValidateSkuData(d, existing).errors
  {
  }

  /** The message `validateLoginCredentials` records under a field, if any. */
  function LoginMessage(username: string, password: string, k: Field): Option<string> {
    match k
    case Username => When(IsBlank(username), "Username is required")
    case Password => When(IsBlank(password), "Password is required")
    case _ => None
  }

  /** `validateLoginCredentials(username, password)`. */
  function ValidateLoginCredentials(username: string, password: string): (r: Report)
    ensures Username in r.errors <==> IsBlank(username)
    ensures Password in r.errors <==> IsBlank(password)
    ensures r.errors.Keys <= {Username, Password}
    ensures r.isValid <==> !IsBlank(username) && !IsBlank(password)
  {
    ReportOf(Collect((k: Field) => LoginMessage(username, password, k)))
  }

  const XlsxMime: string := "application/vnd.openxmlformats-officedocument.spreadsheetml.sheet"
  const XlsMime: string := "application/vnd.ms-excel"

  /** `validateFileType(file)`, on the file's MIME type. */
  function ValidateFileType(mimeType: string): (ok: bool)
    ensures ok <==> mimeType == XlsxMime || mimeType == XlsMime
    ensures ok ==> |mimeType| > 0
  {
    mimeType in [XlsxMime, XlsMime]
  }
}
