/** The planning reducer (src/redux/slices/planningSlice.ts): the calendar
    weeks and the canonical list of planning facts, with the upsert by
    composite key that every grid edit goes through. */
module PlanningSlice {
  import opened Wrappers
  import opened Records
  import Lists

  datatype PlanningState = PlanningState(weeks: seq<Week>, planningData: seq<Fact>)

  const Initial: PlanningState := PlanningState([], [])

  /** `setWeeks`: the week list is replaced wholesale. */
  function SetWeeks(s: PlanningState, weeks: seq<Week>): (r: PlanningState)
    ensures r.weeks == weeks && r.planningData == s.planningData
  {
    s.(weeks := weeks)
  }

  /** `setPlanningData`: the fact list is replaced wholesale. */
  function SetPlanningData(s: PlanningState, facts: seq<Fact>): (r: PlanningState)
    ensures r.planningData == facts && r.weeks == s.weeks
  {
    s.(planningData := facts)
  }

  /** Replace the first fact with the payload's key, or append the payload. */
  function Upsert(facts: seq<Fact>, f: Fact): (r: seq<Fact>)
    ensures |r| == |facts| || r == facts + [f]
    ensures |r| == |facts| + 1 <==> forall j :: 0 <= j < |facts| ==> KeyOf(facts[j]) != KeyOf(f)
    ensures forall j :: 0 <= j < |facts| && KeyOf(facts[j]) != KeyOf(f) ==> r[j] == facts[j]
    ensures f in r
  {
    match Lists.FindIndex(facts, (g: Fact) => KeyOf(g) == KeyOf(f))
    case Some(i) =>
      var r := facts[i := f];
      assert r[i] == f;
      r
    case None => facts + [f]
  }

  /** `updatePlanningData`: the upsert, leaving the weeks alone. */
  function UpdatePlanningData(s: PlanningState, f: Fact): (r: PlanningState)
    ensures r.weeks == s.weeks
    ensures r.planningData == Upsert(s.planningData, f)
  {
    s.(planningData := Upsert(s.planningData, f))
  }

  /** When a fact with the key exists, the first one is replaced in place. */
  lemma UpsertReplacesFirstMatch(facts: seq<Fact>, f: Fact, i: nat)
    requires i < |facts| && KeyOf(facts[i]) == KeyOf(f)
    requires forall j :: 0 <= j < i ==> KeyOf(facts[j]) != KeyOf(f)
    ensures Upsert(facts, f) == facts[i := f]
  {
    Lists.FindIndexIsFirst(facts, (g: Fact) => KeyOf(g) == KeyOf(f), i);
  }

  /** When no fact has the key, the payload is appended at the end. */
  lemma UpsertAppendsNewKey(facts: seq<Fact>, f: Fact)
    requires forall j :: 0 <= j < |facts| ==> KeyOf(facts[j]) != KeyOf(f)
    ensures Upsert(facts, f) == facts + [f]
  {
  }

  /** After the upsert the payload is the first fact with its key, so every
      lookup by that key sees the new units. */
  lemma UpsertThenLookup(facts: seq<Fact>, f: Fact)
    ensures FindFact(Upsert(facts, f), KeyOf(f)) == Some(f)
    ensures UnitsFor(Upsert(facts, f), KeyOf(f)) == f.salesUnits
  {
    var k := KeyOf(f);
    var r := Upsert(facts, f);
    match Lists.FindIndex(facts, (g: Fact) => KeyOf(g) == k)
    case Some(i) =>
      UpsertReplacesFirstMatch(facts, f, i);
      Lists.FindIndexIsFirst(r, (g: Fact) => KeyOf(g) == k, i);
    case None =>
      UpsertAppendsNewKey(facts, f);
      Lists.FindIndexIsFirst(r, (g: Fact) => KeyOf(g) == k, |facts|);
  }

  /** Lookups of any other key are not affected by the upsert. */
  lemma UpsertKeepsOtherLookups(facts: seq<Fact>, f: Fact, k: Key)
    requires k != KeyOf(f)
    ensures FindFact(Upsert(facts, f), k) == FindFact(facts, k)
    ensures UnitsFor(Upsert(facts, f), k) == UnitsFor(facts, k)
  {
    var r := Upsert(facts, f);
    var p := (g: Fact) => KeyOf(g) == k;
    assert forall j :: 0 <= j < |facts| && p(facts[j]) ==> r[j] == facts[j];
    match Lists.FindIndex(facts, p)
    case Some(i) =>
      Lists.FindIndexIsFirst(r, p, i);
    case None =>
      assert forall j :: 0 <= j < |r| ==> !p(r[j]) by {
        forall j | 0 <= j < |r|
          ensures !p(r[j])
        {
          if j < |facts| {
            if KeyOf(facts[j]) != KeyOf(f) {
              assert r[j] == facts[j];
            } else {
              assert r[j] == f || r[j] == facts[j];
            }
          } else {
            assert r == facts + [f];
          }
        }
      }
  }

  /** Unique keys stay unique, and exactly the payload carries its key. */
  lemma UpsertKeepsKeysUnique(facts: seq<Fact>, f: Fact)
    requires UniqueKeys(facts)
    ensures UniqueKeys(Upsert(facts, f))
    ensures forall j :: 0 <= j < |Upsert(facts, f)| && KeyOf(Upsert(facts, f)[j]) == KeyOf(f) ==> Upsert(facts, f)[j] == f
  {
    var r := Upsert(facts, f);
    match Lists.FindIndex(facts, (g: Fact) => KeyOf(g) == KeyOf(f))
    case Some(i) =>
      UpsertReplacesFirstMatch(facts, f, i);
      assert r == facts[i := f];
      forall a, b | 0 <= a < b < |r|
        ensures KeyOf(r[a]) != KeyOf(r[b])
      {
        assert KeyOf(r[a]) == KeyOf(facts[a]);
        assert KeyOf(r[b]) == KeyOf(facts[b]);
      }
    case None =>
      UpsertAppendsNewKey(facts, f);
  }

  /** Applying the same update twice gives the state of applying it once. */
  lemma UpsertIdempotent(facts: seq<Fact>, f: Fact)
    ensures Upsert(Upsert(facts, f), f) == Upsert(facts, f)
  {
    var r := Upsert(facts, f);
    var p := (g: Fact) => KeyOf(g) == KeyOf(f);
    match Lists.FindIndex(facts, p)
    case Some(i) =>
      UpsertReplacesFirstMatch(facts, f, i);
      UpsertReplacesFirstMatch(r, f, i);
      assert r[i := f] == r;
    case None =>
      UpsertAppendsNewKey(facts, f);
      UpsertReplacesFirstMatch(r, f, |facts|);
      assert r[|facts| := f] == r;
  }

  /** The update action leaves the weeks alone and is idempotent. */
  lemma UpdatePlanningDataIdempotent(s: PlanningState, f: Fact)
    ensures UpdatePlanningData(UpdatePlanningData(s, f), f) == UpdatePlanningData(s, f)
  {
    UpsertIdempotent(s.planningData, f);
  }
}
