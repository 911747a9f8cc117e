/**
 * The fleet state engine of the `DashBoard` component: its six state slots
 * (`cars`, `mapCenter`, `sosMessages`, `okMessages`, `paths`, `followCars`),
 * the shared `audio` element (playing or not, and its playback position)
 * and the speech queue, changed by one method per event handler. Each
 * handler is one atomic transition.
 */
module Dashboard {
  import opened Wrappers
  import opened Ids
  import opened Geo
  import opened Registry
  import opened Trail
  import Camera
  import Display

  /** One element of an `ok` payload. */
  datatype StatusEvent = StatusEvent(carId: RawId, message: string)

  /** The first of the two utterances spoken for an SOS. */
  const SosPhrase: string := "SOS Alert"

  /** `${carId}: ${message}` */
  function Announcement(k: CarKey, message: string): string {
    KeyText(k) + ": " + message
  }

  class DashBoard {
    var cars: CarMap
    var mapCenter: LatLng
    var sosMessages: map<CarKey, string>
    var okMessages: map<CarKey, string>
    var paths: Paths
    var followCars: bool
    /** The alarm clip has been started and not paused since. */
    var alarmPlaying: bool
    /** `audio.currentTime`; only its reset to 0 is modelled. */
    var alarmPos: real
    /** Utterances handed to the speech engine since it was last cancelled. */
    var utterances: seq<string>

    /**
     * The registry is a well-formed Map whose keys are exactly the keys
     * with a trail, no trail exceeds 100 points, and the alarm sounds
     * exactly while some SOS is recorded (and is rewound when silent).
     */
    ghost predicate Valid()
      reads this
    {
      && Aligned(cars, paths)
      && (alarmPlaying <==> sosMessages != map[])
      && (!alarmPlaying ==> alarmPos == 0.0)
    }

    constructor ()
      ensures Valid()
      ensures cars == Empty && paths == map[] && sosMessages == map[] && okMessages == map[]
      ensures mapCenter == Home && followCars
      ensures !alarmPlaying && alarmPos == 0.0 && utterances == []
    {
      cars := Empty;
      mapCenter := Home;
      sosMessages := map[];
      okMessages := map[];
      paths := map[];
      followCars := true;
      alarmPlaying := false;
      alarmPos := 0.0;
      utterances := [];
    }

    /** The point `MapUpdater` centres the map on. */
    function Focus(): (f: LatLng)
      reads this
      requires Valid()
      ensures !followCars || cars.records == map[] ==> f == mapCenter
      ensures followCars && |cars.order| == 1 ==> f == PositionOf(cars.records[cars.order[0]])
      ensures followCars && |cars.order| > 1 ==>
                Camera.IsMean(f.lat, Camera.Lats(Values(cars))) && Camera.IsMean(f.lng, Camera.Lngs(Values(cars)))
    {
      Camera.Focus(Values(cars), followCars, mapCenter)
    }

    /** `sortedCars`: every record once, ordered by id. */
    function SortedCars(): (cs: seq<Car>)
      reads this
      requires Valid()
      ensures multiset(cs) == multiset(Values(cars))
      ensures Display.AllNumeric(Values(cars)) ==> Display.Ascending(cs)
    {
      Display.SortAscending(Values(cars));
      Display.SortById(Values(cars))
    }

    /**
     * `updateCarData`: upsert every car of the batch under its normalised
     * key and append its position to that key's trail.
     */
    method UpdateCarData(data: seq<RawCar>)
      requires Valid()
      modifies this
      ensures Valid()
      ensures cars == SetAll(old(cars), data)
      ensures paths == UpdatePaths(old(paths), data)
      ensures mapCenter == old(mapCenter) && followCars == old(followCars)
      ensures sosMessages == old(sosMessages) && okMessages == old(okMessages)
      ensures alarmPlaying == old(alarmPlaying) && alarmPos == old(alarmPos) && utterances == old(utterances)
    {
      var newCars, newPaths := ApplyBatch(cars, paths, data);
      BatchKeepsAligned(cars, paths, data);
      cars := newCars;
      paths := newPaths;
    }

    /**
     * A `locationUpdate` event: both registered listeners run
     * `updateCarData` on the same batch. The registry ends as after one
     * delivery; every trail receives each reported point twice.
     */
    method OnLocationUpdate(data: seq<RawCar>)
      requires Valid()
      modifies this
      ensures Valid()
      ensures cars == SetAll(old(cars), data)
      ensures forall k :: TrailOf(paths, k)
                       == LastN(TrailOf(old(paths), k) + PointsFor(data, k) + PointsFor(data, k), TrailCap)
      ensures mapCenter == old(mapCenter) && followCars == old(followCars)
      ensures sosMessages == old(sosMessages) && okMessages == old(okMessages)
      ensures alarmPlaying == old(alarmPlaying) && alarmPos == old(alarmPos) && utterances == old(utterances)
    {
      UpdateCarData(data);
      UpdateCarData(data);
      SetAllIdempotent(old(cars), data);
      DoubleDelivery(old(paths), data);
    }

    /**
     * The `sos` handler: record (or replace) the message under the
     * normalised id, start the alarm, and queue "SOS Alert" followed by
     * "{id}: {message}".
     */
    method OnSos(carId: RawId, message: string)
      requires Valid()
      modifies this
      ensures Valid()
      ensures sosMessages == old(sosMessages)[Normalise(carId) := message]
      ensures alarmPlaying && alarmPos == old(alarmPos)
      ensures utterances == old(utterances) + [SosPhrase, Announcement(Normalise(carId), message)]
      ensures cars == old(cars) && paths == old(paths) && okMessages == old(okMessages)
      ensures mapCenter == old(mapCenter) && followCars == old(followCars)
    {
      var key := Normalise(carId);
      sosMessages := sosMessages[key := message];
      assert key in sosMessages;
      alarmPlaying := true;
      utterances := utterances + [SosPhrase, Announcement(key, message)];
    }

    /**
     * `updateCarStatus`, the `ok` handler. Only the first element counts.
     * The OK message is stored under the normalised id, but the SOS entry
     * is deleted with the raw id. The alarm is paused and rewound exactly
     * when no SOS is left. An empty payload makes the updater throw on
     * `data.carId`: the handler reports `failed` and no state changes.
     */
    method UpdateCarStatus(dataArray: seq<StatusEvent>) returns (failed: bool)
      requires Valid()
      modifies this
      ensures Valid()
      ensures failed <==> dataArray == []
      ensures failed ==> okMessages == old(okMessages) && sosMessages == old(sosMessages)
                                  && alarmPlaying == old(alarmPlaying) && alarmPos == old(alarmPos)
      ensures dataArray != [] ==>
                && okMessages == old(okMessages)[Normalise(dataArray[0].carId) := dataArray[0].message]
                && sosMessages == (match DeleteKey(dataArray[0].carId)
                                   case Some(k) => old(sosMessages) - {k}
                                   case None => old(sosMessages))
      ensures sosMessages == map[] ==> !alarmPlaying && alarmPos == 0.0
      ensures sosMessages != map[] ==> alarmPlaying == old(alarmPlaying) && alarmPos == old(alarmPos)
      ensures cars == old(cars) && paths == old(paths) && utterances == old(utterances)
      ensures mapCenter == old(mapCenter) && followCars == old(followCars)
    {
      if |dataArray| == 0 {
        return true;
      }
      failed := false;
      var data := dataArray[0];
      var carId := Normalise(data.carId);
      okMessages := okMessages[carId := data.message];
      var newMessages := sosMessages;
      match DeleteKey(data.carId) {
        case Some(k) => newMessages := newMessages - {k};
        case None =>
      }
      if |newMessages| == 0 {
        alarmPlaying := false;
        alarmPos := 0.0;
      } else {
        ghost var left :| left in newMessages;
        assert left in sosMessages;
      }
      sosMessages := newMessages;
    }

    /** `handleCarInfoClick`: stop following and centre on the clicked point. */
    method HandleCarInfoClick(lat: real, lng: real)
      requires Valid()
      modifies this
      ensures Valid()
      ensures !followCars && mapCenter == LatLng(lat, lng)
      ensures Focus() == LatLng(lat, lng)
      ensures cars == old(cars) && paths == old(paths)
      ensures sosMessages == old(sosMessages) && okMessages == old(okMessages)
      ensures alarmPlaying == old(alarmPlaying) && alarmPos == old(alarmPos) && utterances == old(utterances)
    {
      followCars := false;
      mapCenter := LatLng(lat, lng);
    }

    /**
     * `handleSosAlertClick`: clear every SOS and OK message, cancel speech,
     * pause and rewind the alarm, go back to the campus and follow again.
     */
    method HandleSosAlertClick()
      requires Valid()
      modifies this
      ensures Valid()
      ensures sosMessages == map[] && okMessages == map[] && utterances == []
      ensures !alarmPlaying && alarmPos == 0.0
      ensures mapCenter == Home && followCars
      ensures cars == old(cars) && paths == old(paths)
    {
      sosMessages := map[];
      okMessages := map[];
      utterances := [];
      alarmPlaying := false;
      alarmPos := 0.0;
      mapCenter := Home;
      followCars := true;
    }

    /** The two "Follow Vehicles" buttons: `setFollowCars(!followCars)`. */
    method ToggleFollow()
      requires Valid()
      modifies this
      ensures Valid()
      ensures followCars == !old(followCars)
      ensures mapCenter == old(mapCenter) && cars == old(cars) && paths == old(paths)
      ensures sosMessages == old(sosMessages) && okMessages == old(okMessages)
      ensures alarmPlaying == old(alarmPlaying) && alarmPos == old(alarmPos) && utterances == old(utterances)
    {
      followCars := !followCars;
    }

    /** "Reset to Campus View": the centre goes home; follow mode is left as it is. */
    method ResetToCampus()
      requires Valid()
      modifies this
      ensures Valid()
      ensures mapCenter == Home && followCars == old(followCars)
      ensures cars == old(cars) && paths == old(paths)
      ensures sosMessages == old(sosMessages) && okMessages == old(okMessages)
      ensures alarmPlaying == old(alarmPlaying) && alarmPos == old(alarmPos) && utterances == old(utterances)
    {
      mapCenter := Home;
    }
  }

  /**
   * The body of the `setCars` updater in `updateCarData`: copy the Map,
   * then for each car of the batch in order, `set` its record under the
   * normalised key and call `updatePath` with its position.
   */
  method ApplyBatch(prevCars: CarMap, prevPaths: Paths, data: seq<RawCar>) returns (newCars: CarMap, newPaths: Paths)
    requires Registry.Valid(prevCars)
    ensures newCars == SetAll(prevCars, data)
    ensures newPaths == UpdatePaths(prevPaths, data)
  {
    newCars, newPaths := prevCars, prevPaths;
    for i := 0 to |data|
      invariant Registry.Valid(newCars)
      invariant newCars == SetAll(prevCars, data[..i])
      invariant newPaths == UpdatePaths(prevPaths, data[..i])
    {
      var car := data[i];
      var carId := KeyOf(car);
      BatchStep(prevCars, prevPaths, data, i);
      newCars := Set(newCars, car);
      newPaths := UpdatePath(newPaths, carId, RawPosition(car));
    }
    assert data[..|data|] == data;
  }

  /** Extending the processed prefix by one car is one `set` and one `updatePath`. */
  lemma BatchStep(cars: CarMap, paths: Paths, data: seq<RawCar>, i: nat)
    requires Registry.Valid(cars) && i < |data|
    ensures SetAll(cars, data[..i + 1]) == Set(SetAll(cars, data[..i]), data[i])
    ensures UpdatePaths(paths, data[..i + 1]) == UpdatePath(UpdatePaths(paths, data[..i]), KeyOf(data[i]), RawPosition(data[i]))
  {
    assert data[..i + 1][..i] == data[..i];
  }

  /** The registry is a well-formed Map, its keys are those with a trail, and no trail exceeds the cap. */
  ghost predicate Aligned(cars: CarMap, paths: Paths) {
    Registry.Valid(cars) && Bounded(paths) && paths.Keys == cars.records.Keys
  }

  /** A first batch of two distinct cars lists them in batch order. */
  lemma TwoCarBatch(a: RawCar, b: RawCar)
    requires KeyOf(a) != KeyOf(b)
    ensures Values(SetAll(Empty, [a, b])) == [Record(a), Record(b)]
  {
    FirstBatchOfTwo(a, b);
    var vs := Values(SetAll(Empty, [a, b]));
    assert |vs| == 2 && vs[0] == Record(a) && vs[1] == Record(b);
  }

  /** A batch keeps the registry and the trails aligned. */
  lemma BatchKeepsAligned(cars: CarMap, paths: Paths, data: seq<RawCar>)
    requires Aligned(cars, paths)
    ensures Aligned(SetAll(cars, data), UpdatePaths(paths, data))
  {
    SetAllLookup(cars, data);
    UpdatePathsTrails(paths, data);
    forall k
      ensures k in UpdatePaths(paths, data) <==> k in SetAll(cars, data).records
    {
      LastForIsLast(data, k);
      assert LastFor(data, k).None? <==> PointsFor(data, k) == [];
    }
  }

  /**
   * SOS from cars 1 and 2, then OK from car 1: the alarm keeps sounding for
   * car 2. OK from car 2: it stops.
   */
  method AlarmOutlastsFirstOk() returns (afterFirstOk: bool, afterSecondOk: bool)
    ensures afterFirstOk && !afterSecondOk
  {
    var d := new DashBoard();
    d.OnSos(RawNum(1), "a");
    d.OnSos(RawNum(2), "b");
    var failed := d.UpdateCarStatus([StatusEvent(RawNum(1), "x")]);
    assert NumKey(2) in d.sosMessages;
    afterFirstOk := d.alarmPlaying;
    failed := d.UpdateCarStatus([StatusEvent(RawNum(2), "y")]);
    assert d.sosMessages == map[];
    afterSecondOk := d.alarmPlaying;
  }

  /**
   * An SOS and an OK whose `carId` is `null`: the SOS is stored under
   * "null", but `delete(null)` matches no key, so it survives the OK and
   * the alarm keeps sounding.
   */
  method NullIdOkKeepsSos() returns (sosLeft: bool, playing: bool)
    ensures sosLeft && playing
  {
    var d := new DashBoard();
    d.OnSos(RawOther("null"), "help");
    var failed := d.UpdateCarStatus([StatusEvent(RawOther("null"), "fine")]);
    sosLeft := StrKey("null") in d.sosMessages;
    playing := d.alarmPlaying;
  }

  /**
   * Two cars at (0, 0) and (2, 2) with follow mode on put the focus at
   * (1, 1); after a click on a point the focus stays there while the cars
   * keep moving.
   */
  method ClickOverridesFollow(p: LatLng, moved: seq<RawCar>) returns (followed: LatLng, pinned: LatLng)
    ensures followed == LatLng(1.0, 1.0)
    ensures pinned == p
  {
    var d := new DashBoard();
    var a := RawCar(RawNum(1), 0.0, 0.0, 0.0, None);
    var b := RawCar(RawNum(2), 2.0, 2.0, 0.0, None);
    d.OnLocationUpdate([a, b]);
    TwoCarBatch(a, b);
    Camera.TwoCarCentroid(Record(a), Record(b), d.mapCenter);
    followed := d.Focus();
    d.HandleCarInfoClick(p.lat, p.lng);
    d.OnLocationUpdate(moved);
    pinned := d.Focus();
  }
}
