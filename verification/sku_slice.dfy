/** The SKU reducer (src/redux/slices/skuSlice.ts). */
module SkuSlice {
  import opened Records
  import Lists

  datatype SkuState = SkuState(skus: seq<Sku>)

  const Initial: SkuState := SkuState([])

  /** `setSKUs`. */
  function SetSkus(s: SkuState, skus: seq<Sku>): (r: SkuState)
    ensures r.skus == skus
  {
    SkuState(skus)
  }

  /** `addSKU`: the payload is appended unchanged, with no uniqueness check. */
  function AddSku(s: SkuState, sku: Sku): (r: SkuState)
    ensures |r.skus| == |s.skus| + 1
    ensures r.skus[..|s.skus|] == s.skus && r.skus[|s.skus|] == sku
  {
    var r := SkuState(s.skus + [sku]);
    assert r.skus[..|s.skus|] == s.skus;
    r
  }

  /** `updateSKU`: the first SKU with the payload's id is replaced; with no
      such SKU nothing changes. */
  function UpdateSku(s: SkuState, sku: Sku): (r: SkuState)
    ensures |r.skus| == |s.skus|
    ensures forall j :: 0 <= j < |s.skus| && s.skus[j].id != sku.id ==> r.skus[j] == s.skus[j]
    ensures (forall j :: 0 <= j < |s.skus| ==> s.skus[j].id != sku.id) ==> r == s
    ensures (exists j :: 0 <= j < |s.skus| && s.skus[j].id == sku.id) ==> sku in r.skus
  {
    SkuState(Lists.ReplaceFirst(s.skus, (t: Sku) => t.id == sku.id, sku))
  }

  /** The SKU with the id that comes first is the one replaced. */
  lemma UpdateSkuReplacesFirst(s: SkuState, sku: Sku, i: nat)
    requires i < |s.skus| && s.skus[i].id == sku.id
    requires forall j :: 0 <= j < i ==> s.skus[j].id != sku.id
    ensures UpdateSku(s, sku).skus == s.skus[i := sku]
  {
    Lists.ReplaceFirstAt(s.skus, (t: Sku) => t.id == sku.id, sku, i);
  }

  /** `removeSKU`: every SKU with the id goes, the rest keep their order. */
  function RemoveSku(s: SkuState, id: string): (r: SkuState)
    ensures forall j :: 0 <= j < |r.skus| ==> r.skus[j].id != id && r.skus[j] in s.skus
    ensures forall j :: 0 <= j < |s.skus| && s.skus[j].id != id ==> s.skus[j] in r.skus
    ensures (forall j :: 0 <= j < |s.skus| ==> s.skus[j].id != id) ==> r == s
  {
    SkuState(Lists.Filter(s.skus, (t: Sku) => t.id != id))
  }

  /** Removing twice is removing once. */
  lemma RemoveSkuIdempotent(s: SkuState, id: string)
    ensures RemoveSku(RemoveSku(s, id), id) == RemoveSku(s, id)
  {
  }

  /** Removal works piecewise, so the surviving SKUs keep their order. */
  lemma RemoveSkuKeepsOrder(a: seq<Sku>, b: seq<Sku>, id: string)
    ensures RemoveSku(SkuState(a + b), id).skus == RemoveSku(SkuState(a), id).skus + RemoveSku(SkuState(b), id).skus
  {
    Lists.FilterAppend(a, b, (t: Sku) => t.id != id);
  }
}
