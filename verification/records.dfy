/** The four flat record types of the application and the lookups shared by
    the grid, the chart and the reducers. Every numeric field is a JavaScript
    number, modelled as a `real`. */
module Records {
  import opened Wrappers
  import Lists

  /** A store; `seqNo` is its display position. */
  datatype Store = Store(seqNo: real, id: string, storeLabel: string, city: string, state: string)

  /** A stock-keeping unit with its unit price and unit cost. */
  datatype Sku = Sku(id: string, skuLabel: string, skuClass: string, department: string, price: real, cost: real)

  /** A calendar week; `month` and `monthLabel` group weeks in the grid. */
  datatype Week = Week(seqNo: real, id: string, weekLabel: string, month: string, monthLabel: string)

  /** A planning fact: planned sales units of one SKU in one store and week. */
  datatype Fact = Fact(store: string, sku: string, week: string, salesUnits: real)

  /** The composite key (store, sku, week) of a planning fact. */
  datatype Key = Key(store: string, sku: string, week: string)

  function KeyOf(f: Fact): Key {
    Key(f.store, f.sku, f.week)
  }

  /** `skus.find(s => s.id === id)`. */
  function FindSku(skus: seq<Sku>, id: string): (r: Option<Sku>)
    ensures r.Some? ==> r.value in skus && r.value.id == id
    ensures r.None? <==> forall j :: 0 <= j < |skus| ==> skus[j].id != id
  {
    Lists.Find(skus, (s: Sku) => s.id == id)
  }

  /** The SKU at index `i` is what `FindSku` returns when no earlier SKU
      carries its id. */
  lemma FindSkuAt(skus: seq<Sku>, i: nat)
    requires i < |skus|
    requires forall j :: 0 <= j < i ==> skus[j].id != skus[i].id
    ensures FindSku(skus, skus[i].id) == Some(skus[i])
  {
    Lists.FindIndexIsFirst(skus, (s: Sku) => s.id == skus[i].id, i);
  }

  /** `planningData.find(...)` on the composite key. */
  function FindFact(facts: seq<Fact>, k: Key): (r: Option<Fact>)
    ensures r.Some? ==> r.value in facts && KeyOf(r.value) == k
    ensures r.None? <==> forall j :: 0 <= j < |facts| ==> KeyOf(facts[j]) != k
  {
    Lists.Find(facts, (f: Fact) => KeyOf(f) == k)
  }

  /** `existingData ? existingData.salesUnits : 0`: the units of the first
      fact carrying the key, or 0 when none does. */
  function UnitsFor(facts: seq<Fact>, k: Key): (u: real)
  {
    match FindFact(facts, k)
    case Some(f) => f.salesUnits
    case None => 0.0
  }

  /** The units looked up are 0 when no fact carries the key, and otherwise
      those of a fact carrying it with none before it. */
  lemma UnitsForMeaning(facts: seq<Fact>, k: Key)
    ensures (forall j :: 0 <= j < |facts| ==> KeyOf(facts[j]) != k) ==> UnitsFor(facts, k) == 0.0
    ensures (exists j :: 0 <= j < |facts| && KeyOf(facts[j]) == k) ==>
      exists i :: 0 <= i < |facts| && KeyOf(facts[i]) == k && UnitsFor(facts, k) == facts[i].salesUnits &&
        forall j :: 0 <= j < i ==> KeyOf(facts[j]) != k
  {
    if exists j :: 0 <= j < |facts| && KeyOf(facts[j]) == k {
      var i := FirstWithKey(facts, k);
      UnitsForFirst(facts, k, i);
    }
  }

  /** The position of the first fact carrying the key, when one does. */
  lemma {:induction false} FirstWithKey(facts: seq<Fact>, k: Key) returns (i: nat)
    requires exists j :: 0 <= j < |facts| && KeyOf(facts[j]) == k
    ensures i < |facts| && KeyOf(facts[i]) == k
    ensures forall j :: 0 <= j < i ==> KeyOf(facts[j]) != k
    decreases |facts|
  {
    if KeyOf(facts[0]) == k {
      i := 0;
    } else {
      var j :| 0 <= j < |facts| && KeyOf(facts[j]) == k;
      assert KeyOf(facts[1..][j - 1]) == k;
      var i' := FirstWithKey(facts[1..], k);
      i := i' + 1;
      assert forall j :: 1 <= j < i ==> facts[j] == facts[1..][j - 1];
    }
  }

  /** The first fact carrying the key decides the units looked up. */
  lemma UnitsForFirst(facts: seq<Fact>, k: Key, i: nat)
    requires i < |facts| && KeyOf(facts[i]) == k
    requires forall j :: 0 <= j < i ==> KeyOf(facts[j]) != k
    ensures UnitsFor(facts, k) == facts[i].salesUnits
  {
    Lists.FindIndexIsFirst(facts, (f: Fact) => KeyOf(f) == k, i);
  }

  /** No two facts share a composite key. */
  predicate UniqueKeys(facts: seq<Fact>) {
    forall i, j :: 0 <= i < j < |facts| ==> KeyOf(facts[i]) != KeyOf(facts[j])
  }
}
