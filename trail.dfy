/**
 * The trail buffer: the `paths` Map from a car's key to its most recent
 * positions, oldest first, cut to the last 100 on every append.
 */
module Trail {
  import opened Ids
  import opened Geo
  import opened Registry

  const TrailCap: nat := 100

  type Paths = map<CarKey, seq<LatLng>>

  /**
   * `s.slice(-n)` for n > 0: the last n elements, or all of s when it is
   * shorter. (`slice(-0)` would return all of s; the source only cuts at 100.)
   */
  function LastN<T>(s: seq<T>, n: nat): (r: seq<T>)
    requires n > 0
    ensures |r| == if |s| < n then |s| else n
  {
    if |s| <= n then s else s[|s| - n..]
  }

  /** `slice(-n)` keeps exactly the last n elements, element by element, or all of a shorter s. */
  lemma LastNSuffix<T>(s: seq<T>, n: nat)
    requires n > 0
    ensures |LastN(s, n)| == if |s| < n then |s| else n
    ensures forall i :: 0 <= i < |LastN(s, n)| ==> LastN(s, n)[i] == s[|s| - |LastN(s, n)| + i]
  {
  }

  /** `[...carPath, position].slice(-100)` */
  function AppendPoint(trail: seq<LatLng>, p: LatLng): seq<LatLng> {
    LastN(trail + [p], TrailCap)
  }

  /**
   * An append grows the trail by one point until it holds 100, then keeps
   * it at 100: the new point is last, and before it stand the newest of the
   * old points, oldest first.
   */
  lemma AppendPointShape(trail: seq<LatLng>, p: LatLng)
    ensures var t := AppendPoint(trail, p);
            && |t| == (if |trail| < TrailCap then |trail| + 1 else TrailCap)
            && t[|t| - 1] == p
            && forall i :: 0 <= i < |t| - 1 ==> t[i] == trail[|trail| + 1 - |t| + i]
  {
  }

  /** Appending one point after another, as successive location events do. */
  function AppendPoints(trail: seq<LatLng>, ps: seq<LatLng>): seq<LatLng> {
    if ps == [] then trail else AppendPoint(AppendPoints(trail, ps[..|ps| - 1]), ps[|ps| - 1])
  }

  /** Cutting early and cutting again leaves the same tail as cutting once. */
  lemma LastNOfLastN<T>(s: seq<T>, q: seq<T>, n: nat)
    requires n > 0
    ensures LastN(LastN(s, n) + q, n) == LastN(s + q, n)
  {
    if |s| > n {
      var t := s[|s| - n..];
      assert t + q == (s + q)[|s| - n..];
    }
  }

  /**
   * Any run of appends to a trail of at most 100 points leaves exactly the
   * last 100 points of everything seen, in arrival order.
   */
  lemma {:induction false} AppendPointsKeepsLast(trail: seq<LatLng>, ps: seq<LatLng>)
    requires |trail| <= TrailCap
    ensures AppendPoints(trail, ps) == LastN(trail + ps, TrailCap)
  {
    if ps != [] {
      var init := ps[..|ps| - 1];
      AppendPointsKeepsLast(trail, init);
      LastNOfLastN(trail + init, [ps[|ps| - 1]], TrailCap);
      assert trail + init + [ps[|ps| - 1]] == trail + ps;
    }
  }

  ghost predicate Bounded(paths: Paths) {
    forall k :: k in paths ==> |paths[k]| <= TrailCap
  }

  /** `newPaths.get(carId) || []` */
  function TrailOf(paths: Paths, k: CarKey): seq<LatLng> {
    if k in paths then paths[k] else []
  }

  /** `updatePath(carId, position)` */
  function UpdatePath(paths: Paths, k: CarKey, p: LatLng): Paths {
    paths[k := AppendPoint(TrailOf(paths, k), p)]
  }

  function RawPosition(raw: RawCar): LatLng {
    LatLng(raw.latitude, raw.longitude)
  }

  /** The `updatePath` calls made for a whole batch, in order. */
  function UpdatePaths(paths: Paths, batch: seq<RawCar>): Paths {
    if batch == [] then paths
    else
      var last := batch[|batch| - 1];
      UpdatePath(UpdatePaths(paths, batch[..|batch| - 1]), KeyOf(last), RawPosition(last))
  }

  /** The positions a batch reports for key k, in batch order. */
  function PointsFor(batch: seq<RawCar>, k: CarKey): (ps: seq<LatLng>)
    ensures ps == [] <==> forall i :: 0 <= i < |batch| ==> KeyOf(batch[i]) != k
  {
    if batch == [] then []
    else
      var last := batch[|batch| - 1];
      PointsFor(batch[..|batch| - 1], k) + if KeyOf(last) == k then [RawPosition(last)] else []
  }

  /**
   * A batch appends to car k's trail the positions it reports for k, in
   * order, and the trail keeps the last 100 of them; a car the batch does
   * not mention keeps its trail (and stays absent when it had none).
   */
  lemma {:induction false} UpdatePathsTrailAt(paths: Paths, batch: seq<RawCar>, k: CarKey)
    requires |TrailOf(paths, k)| <= TrailCap
    ensures k in UpdatePaths(paths, batch) <==> k in paths || PointsFor(batch, k) != []
    ensures TrailOf(UpdatePaths(paths, batch), k) == LastN(TrailOf(paths, k) + PointsFor(batch, k), TrailCap)
  {
    if batch == [] {
      assert TrailOf(paths, k) + [] == TrailOf(paths, k);
    } else {
      UpdatePathsTrailAt(paths, batch[..|batch| - 1], k);
      UpdatePathsTrailStep(paths, batch, k);
    }
  }

  /** The inductive step of UpdatePathsTrailAt: the batch's last car goes through one `updatePath`. */
  lemma UpdatePathsTrailStep(paths: Paths, batch: seq<RawCar>, k: CarKey)
    requires batch != []
    requires var before := UpdatePaths(paths, batch[..|batch| - 1]);
             && (k in before <==> k in paths || PointsFor(batch[..|batch| - 1], k) != [])
             && TrailOf(before, k) == LastN(TrailOf(paths, k) + PointsFor(batch[..|batch| - 1], k), TrailCap)
    ensures k in UpdatePaths(paths, batch) <==> k in paths || PointsFor(batch, k) != []
    ensures TrailOf(UpdatePaths(paths, batch), k) == LastN(TrailOf(paths, k) + PointsFor(batch, k), TrailCap)
  {
    var init := batch[..|batch| - 1];
    var last := batch[|batch| - 1];
    var before := UpdatePaths(paths, init);
    TrailOfUpdatePath(before, KeyOf(last), RawPosition(last), k);
    if k == KeyOf(last) {
      var seen := TrailOf(paths, k) + PointsFor(init, k);
      LastNOfLastN(seen, [RawPosition(last)], TrailCap);
      assert seen + [RawPosition(last)] == TrailOf(paths, k) + PointsFor(batch, k);
    } else {
      assert PointsFor(batch, k) == PointsFor(init, k);
    }
  }

  /** One `updatePath` call touches the trail of its own key only. */
  lemma TrailOfUpdatePath(paths: Paths, k0: CarKey, p: LatLng, k: CarKey)
    ensures k in UpdatePath(paths, k0, p) <==> k in paths || k == k0
    ensures TrailOf(UpdatePath(paths, k0, p), k)
         == if k == k0 then LastN(TrailOf(paths, k) + [p], TrailCap) else TrailOf(paths, k)
  {
  }

  /** The same for every car at once; and no trail outgrows the cap. */
  lemma UpdatePathsTrails(paths: Paths, batch: seq<RawCar>)
    requires Bounded(paths)
    ensures Bounded(UpdatePaths(paths, batch))
    ensures forall k :: k in UpdatePaths(paths, batch) <==> k in paths || PointsFor(batch, k) != []
    ensures forall k :: TrailOf(UpdatePaths(paths, batch), k) == LastN(TrailOf(paths, k) + PointsFor(batch, k), TrailCap)
  {
    var after := UpdatePaths(paths, batch);
    forall k
      ensures k in after <==> k in paths || PointsFor(batch, k) != []
      ensures TrailOf(after, k) == LastN(TrailOf(paths, k) + PointsFor(batch, k), TrailCap)
      ensures |TrailOf(after, k)| <= TrailCap
    {
      assert |TrailOf(paths, k)| <= TrailCap;
      UpdatePathsTrailAt(paths, batch, k);
    }
  }

  /**
   * The `locationUpdate` listener is registered twice, so every batch is
   * applied twice: each reported position lands in the trail twice.
   */
  lemma DoubleDelivery(paths: Paths, batch: seq<RawCar>)
    requires Bounded(paths)
    ensures Bounded(UpdatePaths(UpdatePaths(paths, batch), batch))
    ensures forall k :: TrailOf(UpdatePaths(UpdatePaths(paths, batch), batch), k)
                     == LastN(TrailOf(paths, k) + PointsFor(batch, k) + PointsFor(batch, k), TrailCap)
  {
    var once := UpdatePaths(paths, batch);
    UpdatePathsTrails(paths, batch);
    UpdatePathsTrails(once, batch);
    forall k
      ensures TrailOf(UpdatePaths(once, batch), k)
           == LastN(TrailOf(paths, k) + PointsFor(batch, k) + PointsFor(batch, k), TrailCap)
    {
      LastNOfLastN(TrailOf(paths, k) + PointsFor(batch, k), PointsFor(batch, k), TrailCap);
    }
  }

  /** So, unlike the registry, the trails are not idempotent under redelivery. */
  lemma DoubleDeliveryDuplicatesPoint(c: RawCar)
    ensures TrailOf(UpdatePaths(UpdatePaths(map[], [c]), [c]), KeyOf(c)) == [RawPosition(c), RawPosition(c)]
  {
    DoubleDelivery(map[], [c]);
    assert [c][..0] == [];
    assert PointsFor([c], KeyOf(c)) == [RawPosition(c)];
  }
}
