/** The store list screen's handlers (src/components/Stores/StoreList.tsx)
    as pure transformations: each returns the new reducer state and the list
    written to storage, if any. */
module StoreList {
  import opened Wrappers
  import opened Records
  import opened StoreSlice

  /** What a handler leaves behind: the reducer state after its dispatch and
      the list it saved (`None` when it saved nothing). */
  datatype Outcome = Outcome(state: StoreState, saved: Option<seq<Store>>)

  function Ids(stores: seq<Store>): (ids: seq<string>)
    ensures |ids| == |stores|
    ensures forall j :: 0 <= j < |stores| ==> ids[j] == stores[j].id
  {
    if |stores| == 0 then [] else [stores[0].id] + Ids(stores[1..])
  }

  predicate SortedBySeqNo(stores: seq<Store>) {
    forall i, j :: 0 <= i < j < |stores| ==> stores[i].seqNo <= stores[j].seqNo
  }

  /** The exchange both move handlers perform on positions `i` and `i + 1`:
      sequence numbers are swapped first and positions second, so the two
      records trade places while every position keeps its sequence number. */
  function SwapAdjacent(stores: seq<Store>, i: nat): (r: seq<Store>)
    requires i + 1 < |stores|
    ensures |r| == |stores|
    ensures forall j :: 0 <= j < |r| ==> r[j].seqNo == stores[j].seqNo
    ensures r[i].(seqNo := 0.0) == stores[i + 1].(seqNo := 0.0)
    ensures r[i + 1].(seqNo := 0.0) == stores[i].(seqNo := 0.0)
    ensures r[i].id == stores[i + 1].id && r[i + 1].id == stores[i].id
    ensures forall j :: 0 <= j < |r| && j != i && j != i + 1 ==> r[j] == stores[j]
  {
    var a := stores[i].(seqNo := stores[i + 1].seqNo);
    var b := stores[i + 1].(seqNo := stores[i].seqNo);
    stores[i := b][i + 1 := a]
  }

  /** `handleMoveUp(index)`: the store at `index` changes places with the one
      above it; at the top nothing happens. */
  function MoveUp(s: StoreState, index: nat): (o: Outcome)
    requires index < |s.stores|
    ensures index == 0 ==> o == Outcome(s, None)
    ensures index > 0 ==> o.saved == Some(o.state.stores)
    ensures index > 0 ==> o.state.stores == SwapAdjacent(s.stores, index - 1)
    ensures o.state.selectedStore == s.selectedStore
  {
    if index > 0 then
      var stores := SwapAdjacent(s.stores, index - 1);
      Outcome(ReorderStores(s, stores), Some(stores))
    else Outcome(s, None)
  }

  /** `handleMoveDown(index)`: the store at `index` changes places with the
      one below it; at the bottom nothing happens. */
  function MoveDown(s: StoreState, index: nat): (o: Outcome)
    ensures index + 1 >= |s.stores| ==> o == Outcome(s, None)
    ensures index + 1 < |s.stores| ==> o.saved == Some(o.state.stores)
    ensures index + 1 < |s.stores| ==> o.state.stores == SwapAdjacent(s.stores, index)
    ensures o.state.selectedStore == s.selectedStore
  {
    if index < |s.stores| - 1 then
      var stores := SwapAdjacent(s.stores, index);
      Outcome(ReorderStores(s, stores), Some(stores))
    else Outcome(s, None)
  }

  /** `handleRemoveStore(id)`: the list it saves is exactly the reducer's
      result. */
  function RemoveStoreHandler(s: StoreState, id: string): (o: Outcome)
    ensures o.state == RemoveStore(s, id)
    ensures o.saved == Some(o.state.stores)
    ensures forall j :: 0 <= j < |o.state.stores| ==> o.state.stores[j].id != id
  {
    Outcome(RemoveStore(s, id), Some(WithoutStore(s.stores, id)))
  }

  /** A move never disturbs the sequence-number column, so a list sorted by
      sequence number stays sorted. */
  lemma MovesKeepSortedness(s: StoreState, index: nat)
    requires index < |s.stores|
    requires SortedBySeqNo(s.stores)
    ensures SortedBySeqNo(MoveUp(s, index).state.stores)
    ensures SortedBySeqNo(MoveDown(s, index).state.stores)
  {
  }

  /** Exchanging two neighbours of a sequence permutes it. */
  lemma ExchangePermutes<T>(a: seq<T>, i: nat)
    requires i + 1 < |a|
    ensures multiset(a[i := a[i + 1]][i + 1 := a[i]]) == multiset(a)
  {
    var pre, post := a[..i], a[i + 2..];
    assert a == pre + [a[i], a[i + 1]] + post;
    assert a[i := a[i + 1]][i + 1 := a[i]] == pre + [a[i + 1], a[i]] + post;
  }

  /** An exchange of neighbours permutes the ids. */
  lemma SwapAdjacentPermutesIds(stores: seq<Store>, i: nat)
    requires i + 1 < |stores|
    ensures multiset(Ids(SwapAdjacent(stores, i))) == multiset(Ids(stores))
  {
    IdsExchanged(SwapAdjacent(stores, i), stores, i);
    ExchangePermutes(Ids(stores), i);
  }

  /** Two lists whose ids agree except for an exchange at `i`, `i + 1`. */
  lemma IdsExchanged(x: seq<Store>, y: seq<Store>, i: nat)
    requires |x| == |y| && i + 1 < |y|
    requires x[i].id == y[i + 1].id && x[i + 1].id == y[i].id
    requires forall j :: 0 <= j < |x| && j != i && j != i + 1 ==> x[j] == y[j]
    ensures Ids(x) == Ids(y)[i := y[i + 1].id][i + 1 := y[i].id]
  {
    var a, b := Ids(y), Ids(x);
    var c := a[i := a[i + 1]][i + 1 := a[i]];
    forall k | 0 <= k < |b|
      ensures b[k] == c[k]
    {
    }
  }

  /** Every move yields a permutation of the stores' ids. */
  lemma MovesPermuteIds(s: StoreState, index: nat)
    requires index < |s.stores|
    ensures multiset(Ids(MoveUp(s, index).state.stores)) == multiset(Ids(s.stores))
    ensures multiset(Ids(MoveDown(s, index).state.stores)) == multiset(Ids(s.stores))
  {
    var up, down := MoveUp(s, index).state.stores, MoveDown(s, index).state.stores;
    if index > 0 {
      assert up == SwapAdjacent(s.stores, index - 1);
      SwapAdjacentPermutesIds(s.stores, index - 1);
    } else {
      assert up == s.stores;
    }
    if index + 1 < |s.stores| {
      assert down == SwapAdjacent(s.stores, index);
      SwapAdjacentPermutesIds(s.stores, index);
    } else {
      assert down == s.stores;
    }
  }

  /** Moving a store down and then moving it back up restores the list. */
  lemma MoveDownThenUpRestores(s: StoreState, index: nat)
    requires index + 1 < |s.stores|
    ensures MoveUp(MoveDown(s, index).state, index + 1).state == s
  {
    var r := MoveUp(MoveDown(s, index).state, index + 1).state;
    assert r.stores == s.stores;
  }
}
