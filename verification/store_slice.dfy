/** The store reducer (src/redux/slices/storeSlice.ts). */
module StoreSlice {
  import opened Wrappers
  import opened Records
  import Lists

  datatype StoreState = StoreState(stores: seq<Store>, selectedStore: Option<Store>)

  const Initial: StoreState := StoreState([], None)

  /** `Math.max(...stores.map(s => s.seqNo))` on a non-empty list. */
  function MaxSeqNo(stores: seq<Store>): (m: real)
    requires |stores| > 0
    ensures forall i :: 0 <= i < |stores| ==> stores[i].seqNo <= m
    ensures exists i :: 0 <= i < |stores| && stores[i].seqNo == m
  {
    if |stores| == 1 then stores[0].seqNo
    else
      var rest := MaxSeqNo(stores[1..]);
      assert forall i :: 1 <= i < |stores| ==> stores[i] == stores[1..][i - 1];
      if stores[0].seqNo >= rest then stores[0].seqNo else rest
  }

  /** The sequence number `addStore` hands out: one more than the largest in
      use, or 1 for an empty list. */
  function NextSeqNo(stores: seq<Store>): (n: real)
    ensures forall i :: 0 <= i < |stores| ==> stores[i].seqNo + 1.0 <= n
    ensures |stores| == 0 ==> n == 1.0
    ensures |stores| > 0 ==> exists i :: 0 <= i < |stores| && n == stores[i].seqNo + 1.0
    ensures |stores| > 0 ==> n == MaxSeqNo(stores) + 1.0
  {
    if |stores| > 0 then MaxSeqNo(stores) + 1.0 else 1.0
  }

  /** `setStores`. */
  function SetStores(s: StoreState, stores: seq<Store>): (r: StoreState)
    ensures r.stores == stores && r.selectedStore == s.selectedStore
  {
    s.(stores := stores)
  }

  /** `addStore`: appends the payload with a fresh sequence number, whatever
      sequence number it came with; ids are not checked for uniqueness. */
  function AddStore(s: StoreState, store: Store): (r: StoreState)
    ensures |r.stores| == |s.stores| + 1
    ensures r.stores[..|s.stores|] == s.stores
    ensures r.stores[|s.stores|] == store.(seqNo := r.stores[|s.stores|].seqNo)
    ensures forall i :: 0 <= i < |s.stores| ==> s.stores[i].seqNo + 1.0 <= r.stores[|s.stores|].seqNo
    ensures |s.stores| > 0 ==>
      exists i :: 0 <= i < |s.stores| && r.stores[|s.stores|].seqNo == s.stores[i].seqNo + 1.0
    ensures r.stores[|s.stores|].seqNo == (if |s.stores| == 0 then 1.0 else MaxSeqNo(s.stores) + 1.0)
    ensures r.selectedStore == s.selectedStore
  {
    var r := s.(stores := s.stores + [store.(seqNo := NextSeqNo(s.stores))]);
    assert r.stores[..|s.stores|] == s.stores;
    r
  }

  /** Adding a store whose id is already taken still appends it, leaving two
      stores with that id. */
  lemma AddStoreAcceptsDuplicateId(s: StoreState, store: Store, i: nat)
    requires i < |s.stores| && s.stores[i].id == store.id
    ensures var r := AddStore(s, store);
      r.stores[i].id == store.id && r.stores[|s.stores|].id == store.id && i != |s.stores|
  {
    var r := AddStore(s, store);
    assert r.stores[i] == r.stores[..|s.stores|][i];
  }

  /** `updateStore`: the first store with the payload's id is replaced; with
      no such store nothing changes. */
  function UpdateStore(s: StoreState, store: Store): (r: StoreState)
    ensures |r.stores| == |s.stores|
    ensures forall j :: 0 <= j < |s.stores| && s.stores[j].id != store.id ==> r.stores[j] == s.stores[j]
    ensures (forall j :: 0 <= j < |s.stores| ==> s.stores[j].id != store.id) ==> r == s
    ensures (exists j :: 0 <= j < |s.stores| && s.stores[j].id == store.id) ==> store in r.stores
    ensures r.selectedStore == s.selectedStore
  {
    s.(stores := Lists.ReplaceFirst(s.stores, (t: Store) => t.id == store.id, store))
  }

  /** The store with the id that comes first is the one replaced. */
  lemma UpdateStoreReplacesFirst(s: StoreState, store: Store, i: nat)
    requires i < |s.stores| && s.stores[i].id == store.id
    requires forall j :: 0 <= j < i ==> s.stores[j].id != store.id
    ensures UpdateStore(s, store).stores == s.stores[i := store]
  {
    Lists.ReplaceFirstAt(s.stores, (t: Store) => t.id == store.id, store, i);
  }

  /** The stores that do not carry `id`, in their order; shared by the reducer
      and by the list persisted from the store list screen. */
  function WithoutStore(stores: seq<Store>, id: string): (r: seq<Store>)
    ensures forall j :: 0 <= j < |r| ==> r[j].id != id && r[j] in stores
    ensures forall j :: 0 <= j < |stores| && stores[j].id != id ==> stores[j] in r
    ensures (forall j :: 0 <= j < |stores| ==> stores[j].id != id) ==> r == stores
  {
    Lists.Filter(stores, (t: Store) => t.id != id)
  }

  /** `removeStore`: every store with the id goes, the rest keep their order. */
  function RemoveStore(s: StoreState, id: string): (r: StoreState)
    ensures r.stores == WithoutStore(s.stores, id)
    ensures forall j :: 0 <= j < |r.stores| ==> r.stores[j].id != id
    ensures r.selectedStore == s.selectedStore
  {
    s.(stores := WithoutStore(s.stores, id))
  }

  /** Removing twice is removing once. */
  lemma RemoveStoreIdempotent(s: StoreState, id: string)
    ensures RemoveStore(RemoveStore(s, id), id) == RemoveStore(s, id)
  {
  }

  /** Removal keeps the surviving stores in order: it works piecewise. */
  lemma RemoveStoreKeepsOrder(a: seq<Store>, b: seq<Store>, id: string)
    ensures WithoutStore(a + b, id) == WithoutStore(a, id) + WithoutStore(b, id)
  {
    Lists.FilterAppend(a, b, (t: Store) => t.id != id);
  }

  /** `reorderStores`: the list is replaced wholesale by the new order. */
  function ReorderStores(s: StoreState, stores: seq<Store>): (r: StoreState)
    ensures r.stores == stores && r.selectedStore == s.selectedStore
  {
    s.(stores := stores)
  }

  /** `selectStore`: only the selection changes. */
  function SelectStore(s: StoreState, store: Option<Store>): (r: StoreState)
    ensures r.selectedStore == store && r.stores == s.stores
  {
    s.(selectedStore := store)
  }
}
