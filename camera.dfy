/**
 * Camera follow: the point `MapUpdater` hands to `map.setView`. With follow
 * mode on and at least one car, the map shows the single car or the mean of
 * all car positions; otherwise it shows the stored manual centre.
 */
module Camera {
  import opened Geo
  import opened Registry

  /** `xs.reduce((sum, x) => sum + x, 0)` */
  function Sum(xs: seq<real>): real {
    if xs == [] then 0.0 else Sum(xs[..|xs| - 1]) + xs[|xs| - 1]
  }

  function Min(xs: seq<real>): (m: real)
    requires xs != []
    ensures m in xs
    ensures forall i :: 0 <= i < |xs| ==> m <= xs[i]
  {
    if |xs| == 1 then xs[0]
    else
      var rest := Min(xs[..|xs| - 1]);
      if xs[|xs| - 1] < rest then xs[|xs| - 1] else rest
  }

  function Max(xs: seq<real>): (m: real)
    requires xs != []
    ensures m in xs
    ensures forall i :: 0 <= i < |xs| ==> xs[i] <= m
  {
    if |xs| == 1 then xs[0]
    else
      var rest := Max(xs[..|xs| - 1]);
      if xs[|xs| - 1] > rest then xs[|xs| - 1] else rest
  }

  /** A sum of values that all lie in [lo, hi] lies in [n * lo, n * hi]. */
  lemma {:induction false} SumBounds(xs: seq<real>, lo: real, hi: real)
    requires forall i :: 0 <= i < |xs| ==> lo <= xs[i] <= hi
    ensures |xs| as real * lo <= Sum(xs) <= |xs| as real * hi
  {
    if xs != [] {
      var init := xs[..|xs| - 1];
      SumBounds(init, lo, hi);
      assert |xs| as real * lo == |init| as real * lo + lo;
      assert |xs| as real * hi == |init| as real * hi + hi;
    }
  }

  /** m is the arithmetic mean of xs: |xs| copies of m add up to the sum of xs. */
  ghost predicate IsMean(m: real, xs: seq<real>) {
    m * (|xs| as real) == Sum(xs)
  }

  /**
   * `reduce(...) / length`: the mean, which lies between the smallest and
   * the largest value.
   */
  function Mean(xs: seq<real>): (m: real)
    requires xs != []
    ensures IsMean(m, xs)
    ensures Min(xs) <= m <= Max(xs)
  {
    var n, lo, hi := |xs| as real, Min(xs), Max(xs);
    SumBounds(xs, lo, hi);
    DivideBounds(Sum(xs), n, lo, hi);
    Sum(xs) / n
  }

  lemma DivideBounds(s: real, n: real, lo: real, hi: real)
    requires n > 0.0 && n * lo <= s <= n * hi
    ensures (s / n) * n == s
    ensures lo <= s / n <= hi
  {
    var q := s / n;
    assert s == q * n;
  }

  function Lats(cars: seq<Car>): (xs: seq<real>)
    ensures |xs| == |cars| && forall i :: 0 <= i < |cars| ==> xs[i] == cars[i].latitude
  {
    seq(|cars|, i requires 0 <= i < |cars| => cars[i].latitude)
  }

  function Lngs(cars: seq<Car>): (xs: seq<real>)
    ensures |xs| == |cars| && forall i :: 0 <= i < |cars| ==> xs[i] == cars[i].longitude
  {
    seq(|cars|, i requires 0 <= i < |cars| => cars[i].longitude)
  }

  /**
   * The point the map is centred on, given the cars in `Array.from(cars.values())`
   * order, the follow flag and the stored centre. The centroid is the
   * planar mean: no spherical correction.
   */
  function Focus(cars: seq<Car>, follow: bool, center: LatLng): (f: LatLng)
    ensures !follow || cars == [] ==> f == center
    ensures follow && |cars| == 1 ==> f == PositionOf(cars[0])
    ensures follow && |cars| > 1 ==> IsMean(f.lat, Lats(cars)) && IsMean(f.lng, Lngs(cars))
    ensures follow && cars != [] ==>
              && Min(Lats(cars)) <= f.lat <= Max(Lats(cars))
              && Min(Lngs(cars)) <= f.lng <= Max(Lngs(cars))
  {
    if follow && |cars| > 0 then
      if |cars| == 1 then PositionOf(cars[0])
      else
        var lats, lngs := Lats(cars), Lngs(cars);
        LatLng(Mean(lats), Mean(lngs))
    else center
  }

  lemma {:induction false} SumOfConstant(xs: seq<real>, v: real)
    requires forall i :: 0 <= i < |xs| ==> xs[i] == v
    ensures Sum(xs) == |xs| as real * v
  {
    if xs != [] {
      SumOfConstant(xs[..|xs| - 1], v);
    }
  }

  /** Cars that all stand at one point put the focus on that point, however many there are. */
  lemma FocusOnGatheredCars(cars: seq<Car>, p: LatLng)
    requires cars != []
    requires forall i :: 0 <= i < |cars| ==> PositionOf(cars[i]) == p
    ensures Focus(cars, true, Home) == p
  {
    if |cars| > 1 {
      SumOfConstant(Lats(cars), p.lat);
      SumOfConstant(Lngs(cars), p.lng);
    }
  }

  /** Two cars at (0, 0) and (2, 2) with follow mode on: the map centres on (1, 1). */
  lemma TwoCarCentroid(a: Car, b: Car, center: LatLng)
    requires PositionOf(a) == LatLng(0.0, 0.0) && PositionOf(b) == LatLng(2.0, 2.0)
    ensures Focus([a, b], true, center) == LatLng(1.0, 1.0)
  {
    assert Lats([a, b]) == [0.0, 2.0];
    assert Lngs([a, b]) == [0.0, 2.0];
    assert [0.0, 2.0][..1] == [0.0];
    assert [0.0][..0] == [];
  }
}
