/**
 * The vehicle registry: the `cars` Map of the dashboard, filled by the
 * `locationUpdate` handler. A JavaScript Map remembers the order its keys
 * were first set in, and `Array.from(cars.values())` lists the records in
 * that order, so the model keeps the key order beside the key-value map.
 */
module Registry {
  import opened Wrappers
  import opened Ids
  import opened Geo

  /** One element of a `locationUpdate` batch. */
  datatype RawCar = RawCar(carId: RawId, latitude: real, longitude: real, speed: real, course: Option<real>)

  /** A stored record: the event's fields with `carId` replaced by its normalised key. */
  datatype Car = Car(carId: CarKey, latitude: real, longitude: real, speed: real, course: Option<real>)

  /** A JavaScript `Map<CarKey, Car>`: keys in insertion order, and the entries. */
  datatype CarMap = CarMap(order: seq<CarKey>, records: map<CarKey, Car>)

  const Empty: CarMap := CarMap([], map[])

  /** The representation invariant of a JS Map, plus "every record carries its own key". */
  ghost predicate Valid(m: CarMap) {
    && (forall i, j :: 0 <= i < j < |m.order| ==> m.order[i] != m.order[j])
    && (forall k :: k in m.records <==> k in m.order)
    && (forall k :: k in m.records ==> m.records[k].carId == k)
  }

  function KeyOf(raw: RawCar): CarKey {
    Normalise(raw.carId)
  }

  /** `{ ...car, carId }` */
  function Record(raw: RawCar): Car {
    Car(KeyOf(raw), raw.latitude, raw.longitude, raw.speed, raw.course)
  }

  function PositionOf(c: Car): LatLng {
    LatLng(c.latitude, c.longitude)
  }

  /** `newCars.set(carId, { ...car, carId })`: a known key keeps its place, a new one goes last. */
  function Set(m: CarMap, raw: RawCar): (r: CarMap)
    requires Valid(m)
    ensures Valid(r)
    ensures r.records.Keys == m.records.Keys + {KeyOf(raw)}
    ensures r.records[KeyOf(raw)] == Record(raw)
    ensures forall k :: k in m.records && k != KeyOf(raw) ==> r.records[k] == m.records[k]
    ensures r.order == if KeyOf(raw) in m.records then m.order else m.order + [KeyOf(raw)]
  {
    var k := KeyOf(raw);
    CarMap(if k in m.records then m.order else m.order + [k], m.records[k := Record(raw)])
  }

  /**
   * `data.forEach(car => newCars.set(...))` over a whole batch: the Map stays
   * well formed, old keys keep their order and new ones follow.
   */
  function SetAll(m: CarMap, batch: seq<RawCar>): (r: CarMap)
    requires Valid(m)
    ensures Valid(r)
    ensures m.order <= r.order
  {
    if batch == [] then m else Set(SetAll(m, batch[..|batch| - 1]), batch[|batch| - 1])
  }

  /**
   * The keys a batch adds to a Map holding `known`, in the order of their
   * first appearance in the batch: the order `set` appends them in.
   */
  function NewKeys(known: set<CarKey>, batch: seq<RawCar>): seq<CarKey> {
    if batch == [] then []
    else
      var earlier := NewKeys(known, batch[..|batch| - 1]);
      var k := KeyOf(batch[|batch| - 1]);
      if k in known || k in earlier then earlier else earlier + [k]
  }

  /** After a batch, the Map iterates its old keys first, then the new keys in order of first appearance. */
  lemma {:induction false} SetAllOrder(m: CarMap, batch: seq<RawCar>)
    requires Valid(m)
    ensures SetAll(m, batch).order == m.order + NewKeys(m.records.Keys, batch)
  {
    if batch != [] {
      SetAllOrder(m, batch[..|batch| - 1]);
    }
  }

  /** The last entry of the batch whose normalised key is `k`: the one whose write survives. */
  function LastFor(batch: seq<RawCar>, k: CarKey): Option<RawCar> {
    if batch == [] then None
    else if KeyOf(batch[|batch| - 1]) == k then Some(batch[|batch| - 1])
    else LastFor(batch[..|batch| - 1], k)
  }

  /**
   * LastFor finds an entry exactly when the batch mentions k, and then it
   * is an entry for k after which the batch never mentions k again.
   */
  lemma {:induction false} LastForIsLast(batch: seq<RawCar>, k: CarKey)
    ensures LastFor(batch, k).None? <==> forall i :: 0 <= i < |batch| ==> KeyOf(batch[i]) != k
    ensures LastFor(batch, k).Some? ==>
              exists i :: 0 <= i < |batch| && batch[i] == LastFor(batch, k).value && KeyOf(batch[i]) == k
                          && forall j :: i < j < |batch| ==> KeyOf(batch[j]) != k
  {
    if batch != [] && KeyOf(batch[|batch| - 1]) != k {
      var init := batch[..|batch| - 1];
      LastForIsLast(init, k);
      assert forall i :: 0 <= i < |init| ==> init[i] == batch[i];
    }
  }

  /** `Array.from(cars.values())` */
  function Values(m: CarMap): (cs: seq<Car>)
    requires Valid(m)
    ensures |cs| == |m.order| == |m.records|
    ensures forall i :: 0 <= i < |cs| ==> cs[i] == m.records[m.order[i]]
  {
    DistinctSize(m);
    seq(|m.order|, i requires 0 <= i < |m.order| => m.records[m.order[i]])
  }

  lemma DistinctSize(m: CarMap)
    requires Valid(m)
    ensures |m.records| == |m.order|
  {
    DistinctSeqSize(m.order);
    assert m.records.Keys == set k | k in m.order;
  }

  lemma {:induction false} DistinctSeqSize(s: seq<CarKey>)
    requires forall i, j :: 0 <= i < j < |s| ==> s[i] != s[j]
    ensures |set k | k in s| == |s|
  {
    if s != [] {
      var init := s[..|s| - 1];
      DistinctSeqSize(init);
      assert (set k | k in s) == (set k | k in init) + {s[|s| - 1]};
      assert s[|s| - 1] !in init;
    }
  }

  /**
   * After a batch, key k holds the record of the batch's LAST entry for k;
   * a key the batch does not mention is untouched, and no other key appears.
   */
  lemma {:induction false} SetAllLookupAt(m: CarMap, batch: seq<RawCar>, k: CarKey)
    requires Valid(m)
    ensures k in SetAll(m, batch).records <==> k in m.records || LastFor(batch, k).Some?
    ensures LastFor(batch, k).Some? ==> SetAll(m, batch).records[k] == Record(LastFor(batch, k).value)
    ensures LastFor(batch, k).None? && k in m.records ==> SetAll(m, batch).records[k] == m.records[k]
  {
    if batch != [] {
      SetAllLookupAt(m, batch[..|batch| - 1], k);
    }
  }

  /** The same, for every key at once. */
  lemma SetAllLookup(m: CarMap, batch: seq<RawCar>)
    requires Valid(m)
    ensures Valid(SetAll(m, batch))
    ensures m.order <= SetAll(m, batch).order
    ensures forall k :: k in SetAll(m, batch).records <==> k in m.records || LastFor(batch, k).Some?
    ensures forall k :: LastFor(batch, k).Some? ==> SetAll(m, batch).records[k] == Record(LastFor(batch, k).value)
    ensures forall k :: LastFor(batch, k).None? && k in m.records ==> SetAll(m, batch).records[k] == m.records[k]
  {
    forall k
      ensures k in SetAll(m, batch).records <==> k in m.records || LastFor(batch, k).Some?
      ensures LastFor(batch, k).Some? ==> SetAll(m, batch).records[k] == Record(LastFor(batch, k).value)
      ensures LastFor(batch, k).None? && k in m.records ==> SetAll(m, batch).records[k] == m.records[k]
    {
      SetAllLookupAt(m, batch, k);
    }
  }

  /** A batch whose keys are all known already leaves the key order alone. */
  lemma {:induction false} SetAllKnownKeys(m: CarMap, batch: seq<RawCar>)
    requires Valid(m)
    requires forall i :: 0 <= i < |batch| ==> KeyOf(batch[i]) in m.records
    ensures SetAll(m, batch).order == m.order
  {
    if batch != [] {
      var init := batch[..|batch| - 1];
      SetAllKnownKeys(m, init);
      SetAllLookup(m, init);
    }
  }

  /**
   * Applying the same batch a second time changes nothing: the upsert is
   * idempotent, which is why the doubly registered `locationUpdate`
   * listener leaves the registry as one delivery would.
   */
  lemma SetAllIdempotent(m: CarMap, batch: seq<RawCar>)
    requires Valid(m)
    ensures SetAll(SetAll(m, batch), batch) == SetAll(m, batch)
  {
    var once := SetAll(m, batch);
    SetAllLookup(m, batch);
    forall i | 0 <= i < |batch|
      ensures KeyOf(batch[i]) in once.records
    {
      LastForIsLast(batch, KeyOf(batch[i]));
    }
    SetAllAgain(once, batch);
  }

  /** A batch whose every last write is already in place changes nothing. */
  lemma SetAllAgain(m: CarMap, batch: seq<RawCar>)
    requires Valid(m)
    requires forall i :: 0 <= i < |batch| ==> KeyOf(batch[i]) in m.records
    requires forall k :: LastFor(batch, k).Some? ==> k in m.records && m.records[k] == Record(LastFor(batch, k).value)
    ensures SetAll(m, batch) == m
  {
    var again := SetAll(m, batch);
    SetAllLookup(m, batch);
    SetAllKnownKeys(m, batch);
    assert again.records.Keys == m.records.Keys;
    forall k | k in m.records
      ensures again.records[k] == m.records[k]
    {
    }
    assert again.records == m.records;
  }

  /** A first batch of two cars with different keys makes two records, in batch order. */
  lemma FirstBatchOfTwo(a: RawCar, b: RawCar)
    requires KeyOf(a) != KeyOf(b)
    ensures SetAll(Empty, [a, b]) == CarMap([KeyOf(a), KeyOf(b)], map[KeyOf(a) := Record(a), KeyOf(b) := Record(b)])
  {
    assert [a, b][..1] == [a] && [a][..0] == [];
    var one := Set(Empty, a);
    assert SetAll(Empty, [a]) == one;
    assert SetAll(Empty, [a, b]) == Set(one, b);
  }

  /** A number id and its digits as a string make two records, not one. */
  lemma MixedIdsMakeTwoRecords(lat: real, lng: real)
    ensures var m := SetAll(Empty, [RawCar(RawNum(5), lat, lng, 0.0, None), RawCar(RawStr("5"), lat, lng, 0.0, None)]);
            |m.records| == 2 && m.order == [NumKey(5), StrKey("5")]
  {
    var a := RawCar(RawNum(5), lat, lng, 0.0, None);
    var b := RawCar(RawStr("5"), lat, lng, 0.0, None);
    NormaliseKeepsTypesApart(5, "5");
    FirstBatchOfTwo(a, b);
    DistinctSize(SetAll(Empty, [a, b]));
  }
}
