/**
 * Display order: `sortedCars`, the registry's records sorted with the
 * comparator `(a, b) => a.carId - b.carId`. Subtraction turns a string id
 * into a number (NaN when it is not numeric), and a NaN comparison counts
 * as "equal". `Array.prototype.sort` is stable; the insertion sort here is
 * one stable sort, and for fleets whose ids are numeric and tell cars apart
 * every correct sort returns the same list (DisplayOrderUnique).
 */
module Display {
  import opened Wrappers
  import opened Ids
  import opened Registry

  /** What `carId` becomes under subtraction; `None` is NaN. */
  function SortValue(c: Car): Option<int> {
    match c.carId
    case NumKey(n) => Some(n)
    case StrKey(s) => NumericValue(s)
  }

  /** `a.carId - b.carId > 0` */
  predicate After(a: Car, b: Car) {
    SortValue(a).Some? && SortValue(b).Some? && SortValue(a).value > SortValue(b).value
  }

  /** Place c after every element of `sorted` it does not precede. */
  function Insert(sorted: seq<Car>, c: Car): (r: seq<Car>)
    ensures multiset(r) == multiset(sorted) + multiset{c}
  {
    if sorted == [] then [c]
    else
      var last := sorted[|sorted| - 1];
      assert sorted == sorted[..|sorted| - 1] + [last];
      if After(last, c) then Insert(sorted[..|sorted| - 1], c) + [last]
      else sorted + [c]
  }

  /** `cars.sort((a, b) => a.carId - b.carId)`: a permutation of its input. */
  function SortById(cars: seq<Car>): (r: seq<Car>)
    ensures multiset(r) == multiset(cars)
  {
    if cars == [] then []
    else
      assert cars == cars[..|cars| - 1] + [cars[|cars| - 1]];
      Insert(SortById(cars[..|cars| - 1]), cars[|cars| - 1])
  }

  ghost predicate AllNumeric(cars: seq<Car>) {
    forall i :: 0 <= i < |cars| ==> SortValue(cars[i]).Some?
  }

  ghost predicate Ascending(cars: seq<Car>) {
    forall i, j :: 0 <= i < j < |cars| ==> !After(cars[i], cars[j])
  }

  lemma {:induction false} InsertAscending(sorted: seq<Car>, c: Car)
    requires Ascending(sorted) && AllNumeric(sorted) && SortValue(c).Some?
    ensures Ascending(Insert(sorted, c))
  {
    if sorted != [] {
      var init := sorted[..|sorted| - 1];
      var last := sorted[|sorted| - 1];
      if After(last, c) {
        InsertAscending(init, c);
        var r := Insert(init, c);
        forall x | x in r
          ensures !After(x, last)
        {
          assert x in multiset(r);
          assert x == c || x in init;
        }
      }
    }
  }

  /** With numeric ids throughout, the result runs in ascending id order. */
  lemma {:induction false} SortAscending(cars: seq<Car>)
    ensures AllNumeric(cars) ==> Ascending(SortById(cars))
  {
    if cars != [] && AllNumeric(cars) {
      var init := cars[..|cars| - 1];
      SortAscending(init);
      var s := SortById(init);
      forall x | x in s
        ensures SortValue(x).Some?
      {
        assert x in multiset(init);
      }
      InsertAscending(s, cars[|cars| - 1]);
    }
  }

  /** Ids tell the cars of the list apart. */
  ghost predicate IdsIdentify(cars: seq<Car>) {
    forall x, y :: x in cars && y in cars && SortValue(x) == SortValue(y) ==> x == y
  }

  /**
   * Two ascending arrangements of the same numeric-id cars are one and the
   * same list, so the order does not depend on the sort algorithm.
   */
  lemma {:induction false} DisplayOrderUnique(a: seq<Car>, b: seq<Car>)
    requires multiset(a) == multiset(b)
    requires AllNumeric(a) && IdsIdentify(a)
    requires Ascending(a) && Ascending(b)
    ensures a == b
    decreases |a|
  {
    assert |a| == |multiset(a)| == |b|;
    if a != [] {
      HeadsAgree(a, b);
      Tail(a);
      Tail(b);
      DisplayOrderUnique(a[1..], b[1..]);
      assert a == [a[0]] + a[1..] && b == [b[0]] + b[1..];
    }
  }

  /** The least id comes first in both arrangements, and it names one car. */
  lemma HeadsAgree(a: seq<Car>, b: seq<Car>)
    requires a != [] && multiset(a) == multiset(b)
    requires AllNumeric(a) && IdsIdentify(a)
    requires Ascending(a) && Ascending(b)
    ensures b != [] && a[0] == b[0]
  {
    assert a[0] in multiset(b) && b[0] in multiset(a);
    var i :| 0 <= i < |a| && a[i] == b[0];
    var j :| 0 <= j < |b| && b[j] == a[0];
    assert i == 0 || !After(a[0], a[i]);
    assert j == 0 || !After(b[0], b[j]);
    assert SortValue(a[i]).Some? && SortValue(a[0]).Some?;
  }

  lemma Tail(a: seq<Car>)
    requires a != []
    ensures multiset(a[1..]) == multiset(a) - multiset{a[0]}
    ensures AllNumeric(a) ==> AllNumeric(a[1..])
    ensures Ascending(a) ==> Ascending(a[1..])
    ensures IdsIdentify(a) ==> IdsIdentify(a[1..])
  {
    assert a == [a[0]] + a[1..];
    assert forall x :: x in a[1..] ==> x in a;
  }

  /** For a fleet whose ids are all numbers, the display list runs in ascending id order. */
  lemma FleetSortAscending(m: CarMap)
    requires Valid(m)
    requires forall k :: k in m.records ==> k.NumKey?
    ensures AllNumeric(Values(m)) && IdsIdentify(Values(m))
    ensures Ascending(SortById(Values(m)))
  {
    var vs := Values(m);
    forall i | 0 <= i < |vs|
      ensures SortValue(vs[i]).Some?
    {
      assert vs[i].carId == m.order[i];
    }
    forall x, y | x in vs && y in vs && SortValue(x) == SortValue(y)
      ensures x == y
    {
      var i :| 0 <= i < |vs| && vs[i] == x;
      var j :| 0 <= j < |vs| && vs[j] == y;
      assert x.carId == m.order[i] && y.carId == m.order[j];
    }
    SortAscending(vs);
  }

  /**
   * ... and it is the only list of the fleet's records, each once, in
   * ascending id order: whatever algorithm sorts, the sidebar reads the same.
   */
  lemma FleetDisplayOrder(m: CarMap, other: seq<Car>)
    requires Valid(m)
    requires forall k :: k in m.records ==> k.NumKey?
    requires multiset(other) == multiset(Values(m)) && Ascending(other)
    ensures other == SortById(Values(m))
  {
    var vs := Values(m);
    var sorted := SortById(vs);
    FleetSortAscending(m);
    forall i | 0 <= i < |sorted|
      ensures SortValue(sorted[i]).Some?
    {
      assert sorted[i] in multiset(vs);
    }
    forall x, y | x in sorted && y in sorted && SortValue(x) == SortValue(y)
      ensures x == y
    {
      assert x in multiset(vs) && y in multiset(vs);
    }
    DisplayOrderUnique(sorted, other);
  }
}
