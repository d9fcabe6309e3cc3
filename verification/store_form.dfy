/** The add-store dialog (src/components/Stores/StoreForm.tsx): its own
    validation, which does not trim, and what a submit dispatches and saves. */
module StoreForm {
  import opened Wrappers
  import opened Records
  import opened StoreSlice
  import opened Validators

  /** The four text inputs of the dialog. */
  datatype StoreInput = StoreInput(id: string, storeLabel: string, city: string, state: string)

  /** The message the dialog's `validateForm` records under a field: only
      empty text is missing, and an id is a duplicate when any listed store
      carries it. */
  function FormMessage(f: StoreInput, stores: seq<Store>, k: Field): Option<string> {
    match k
    case Id =>
      if f.id == "" then Some("Store ID is required")
      else When(exists j :: 0 <= j < |stores| && stores[j].id == f.id, "Store ID must be unique")
    case Label => When(f.storeLabel == "", "Store label is required")
    case City => When(f.city == "", "City is required")
    case State => When(f.state == "", "State is required")
    case _ => None
  }

  /** `validateForm`'s error map. */
  function FormErrors(f: StoreInput, stores: seq<Store>): (e: Errors)
    ensures Id in e <==> f.id == "" || exists j :: 0 <= j < |stores| && stores[j].id == f.id
    ensures f.id == "" ==> e[Id] == "Store ID is required"
    ensures f.id != "" && Id in e ==> e[Id] == "Store ID must be unique"
    ensures Label in e <==> f.storeLabel == ""
    ensures City in e <==> f.city == ""
    ensures State in e <==> f.state == ""
    ensures e.Keys <= {Id, Label, City, State}
  {
    Collect((k: Field) => FormMessage(f, stores, k))
  }

  /** `validateForm()`. */
  function ValidateForm(f: StoreInput, stores: seq<Store>): (ok: bool)
    ensures ok <==> FormErrors(f, stores) == map[]
    ensures ok ==> f.id != "" && f.storeLabel != "" && f.city != "" && f.state != ""
    ensures ok ==> forall j :: 0 <= j < |stores| ==> stores[j].id != f.id
  {
    |FormErrors(f, stores)| == 0
  }

  /** What a submit leaves behind: the reducer state and the saved list. */
  datatype Submitted = Submitted(state: StoreState, saved: Option<seq<Store>>)

  /** `handleSubmit()`: a valid form dispatches `addStore` with a record whose
      sequence number is 0 and saves the old list with that record appended;
      an invalid form does neither. */
  function HandleSubmit(s: StoreState, f: StoreInput): (o: Submitted)
    ensures !ValidateForm(f, s.stores) ==> o == Submitted(s, None)
    ensures ValidateForm(f, s.stores) ==>
      var added := Store(0.0, f.id, f.storeLabel, f.city, f.state);
      && o.state == AddStore(s, added)
      && o.saved == Some(s.stores + [added])
  {
    if ValidateForm(f, s.stores) then
      var added := Store(0.0, f.id, f.storeLabel, f.city, f.state);
      Submitted(AddStore(s, added), Some(s.stores + [added]))
    else Submitted(s, None)
  }

  /** The saved copy keeps sequence number 0 for the new store, while the
      reducer gives it the next free number, so with non-negative sequence
      numbers the two lists disagree on the new store. */
  lemma SavedSeqNoDiffersFromState(s: StoreState, f: StoreInput)
    requires ValidateForm(f, s.stores)
    requires forall j :: 0 <= j < |s.stores| ==> s.stores[j].seqNo >= 0.0
    ensures var o := HandleSubmit(s, f);
      && o.saved.Some?
      && o.saved.value[|s.stores|].seqNo == 0.0
      && o.state.stores[|s.stores|].seqNo >= 1.0
      && o.saved.value != o.state.stores
  {
    var o := HandleSubmit(s, f);
    var n := NextSeqNo(s.stores);
    assert n >= 1.0 by {
      if |s.stores| > 0 {
        var i :| 0 <= i < |s.stores| && n == s.stores[i].seqNo + 1.0;
      }
    }
    assert o.state.stores[|s.stores|].seqNo == n;
    assert o.saved.value[|s.stores|] != o.state.stores[|s.stores|];
  }

  /** The dialog does not trim: a label of white space alone passes the
      dialog while the shared validator rejects it. */
  lemma BlankLabelPassesDialogOnly(s: StoreState, f: StoreInput)
    requires f.storeLabel == " "
    ensures Label !in FormErrors(f, s.stores)
    ensures Label in ValidateStoreData(
      StoreDraft(Some(0.0), Some(f.id), Some(f.storeLabel), Some(f.city), Some(f.state)), s.stores).errors
  {
  }
}
