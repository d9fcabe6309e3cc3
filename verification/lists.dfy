/** The three array operations the reducers and components are built from:
    `findIndex`/`find` (first match), "assign at the first match" and
    `filter`. */
module Lists {
  import opened Wrappers

  /** `xs.findIndex(p)`, with `None` standing for -1. */
  function FindIndex<T>(xs: seq<T>, p: T -> bool): (r: Option<nat>)
    ensures r.Some? ==> r.value < |xs| && p(xs[r.value])
    ensures r.Some? ==> forall j :: 0 <= j < r.value ==> !p(xs[j])
    ensures r.None? <==> forall j :: 0 <= j < |xs| ==> !p(xs[j])
  {
    if |xs| == 0 then None
    else if p(xs[0]) then Some(0)
    else match FindIndex(xs[1..], p)
      case None => None
      case Some(i) => Some(i + 1)
  }

  /** The first index satisfying `p` is the index `FindIndex` reports. */
  lemma FindIndexIsFirst<T>(xs: seq<T>, p: T -> bool, i: nat)
    requires i < |xs| && p(xs[i])
    requires forall j :: 0 <= j < i ==> !p(xs[j])
    ensures FindIndex(xs, p) == Some(i)
  {
  }

  /** `xs.find(p)`: the first element satisfying `p`. */
  function Find<T>(xs: seq<T>, p: T -> bool): (r: Option<T>)
    ensures r.Some? ==> r.value in xs && p(r.value)
    ensures r.None? <==> forall j :: 0 <= j < |xs| ==> !p(xs[j])
    ensures r.Some? ==> exists i :: 0 <= i < |xs| && xs[i] == r.value && forall j :: 0 <= j < i ==> !p(xs[j])
  {
    match FindIndex(xs, p)
    case None => None
    case Some(i) => Some(xs[i])
  }

  /** `i = xs.findIndex(p); if (i !== -1) xs[i] = x`: the first element
      satisfying `p` is replaced, everything else stays where it was. */
  function ReplaceFirst<T>(xs: seq<T>, p: T -> bool, x: T): (r: seq<T>)
    ensures |r| == |xs|
    ensures forall j :: 0 <= j < |xs| && !p(xs[j]) ==> r[j] == xs[j]
    ensures (forall j :: 0 <= j < |xs| ==> !p(xs[j])) ==> r == xs
    ensures (exists j :: 0 <= j < |xs| && p(xs[j])) ==> x in r
  {
    match FindIndex(xs, p)
    case None => xs
    case Some(i) =>
      var r := xs[i := x];
      assert r[i] == x;
      r
  }

  /** Replacing at the first match is replacing at that index. */
  lemma ReplaceFirstAt<T>(xs: seq<T>, p: T -> bool, x: T, i: nat)
    requires i < |xs| && p(xs[i])
    requires forall j :: 0 <= j < i ==> !p(xs[j])
    ensures ReplaceFirst(xs, p, x) == xs[i := x]
  {
    FindIndexIsFirst(xs, p, i);
  }

  /** `xs.filter(p)`. */
  function Filter<T>(xs: seq<T>, p: T -> bool): (r: seq<T>)
    ensures |r| <= |xs|
    ensures forall j :: 0 <= j < |r| ==> p(r[j])
    ensures forall j :: 0 <= j < |r| ==> r[j] in xs
    ensures forall j :: 0 <= j < |xs| && p(xs[j]) ==> xs[j] in r
    ensures (forall j :: 0 <= j < |xs| ==> p(xs[j])) ==> r == xs
    ensures (forall j :: 0 <= j < |xs| ==> !p(xs[j])) ==> r == []
  {
    if |xs| == 0 then []
    else if p(xs[0]) then [xs[0]] + Filter(xs[1..], p)
    else Filter(xs[1..], p)
  }

  /** Filtering works piecewise, so the kept elements keep their order. */
  lemma {:induction false} FilterAppend<T>(a: seq<T>, b: seq<T>, p: T -> bool)
    ensures Filter(a + b, p) == Filter(a, p) + Filter(b, p)
    decreases |a|
  {
    if |a| == 0 {
      assert a + b == b;
    } else {
      assert (a + b)[1..] == a[1..] + b;
      FilterAppend(a[1..], b, p);
    }
  }

  /** Filtering a list with a known head: the head is kept exactly when it
      passes, in front of the filtered tail. */
  lemma FilterCons<T>(x: T, xs: seq<T>, p: T -> bool)
    ensures Filter([x] + xs, p) == (if p(x) then [x] else []) + Filter(xs, p)
  {
    assert ([x] + xs)[1..] == xs;
  }

  /** What filtering adds in front of a list's tail carries over to the
      whole list when it shares its head with the other list, provided the
      head and the addition are not both kept. */
  lemma FilterBehind<T>(xs: seq<T>, ys: seq<T>, p: T -> bool, extra: seq<T>)
    requires |xs| > 0 && |ys| > 0 && xs[0] == ys[0]
    requires Filter(xs[1..], p) == extra + Filter(ys[1..], p)
    requires !p(xs[0]) || extra == []
    ensures Filter(xs, p) == extra + Filter(ys, p)
  {
    if p(xs[0]) {
      assert extra + Filter(ys[1..], p) == Filter(ys[1..], p);
    }
  }

  /** Filtering twice with the same test removes nothing more. */
  lemma FilterIdempotent<T>(xs: seq<T>, p: T -> bool)
    ensures Filter(Filter(xs, p), p) == Filter(xs, p)
  {
  }

  /** Filtering keeps exactly the elements that pass, with their multiplicities. */
  lemma {:induction false} FilterMultiset<T>(xs: seq<T>, p: T -> bool, x: T)
    ensures multiset(Filter(xs, p))[x] == if p(x) then multiset(xs)[x] else 0
    decreases |xs|
  {
    if |xs| > 0 {
      assert xs == [xs[0]] + xs[1..];
      FilterMultiset(xs[1..], p, x);
    }
  }
}
