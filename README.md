# Fleet dashboard state engine, in Dafny

This project models the state engine of the `DashBoard` component of a campus
EV tracker. The component is a React page: a map of moving cars, an SOS and OK
message panel, and a list of vehicles. The model covers what the page
remembers and how each incoming event or button click changes it:

- **The car registry** (`cars`, a JavaScript `Map` from car id to car record).
  A `locationUpdate` batch upserts every car under its *normalised* id: a
  numeric id stays a number, anything else becomes `String(id)`. So `5` and
  `"5"` are two different keys. A record is replaced whole, not merged.
  Insertion order is kept because the Map is iterated to draw and centre the
  map (module `Registry`, ids in module `Ids`).
- **Movement trails** (`paths`). Each reported position is appended to its
  car's trail, which keeps only the last 100 points (`slice(-100)`). The
  `locationUpdate` event has two listeners that both run `updateCarData`, so
  every point is appended twice. The registry itself ends as after one
  delivery, because the upsert is idempotent (module `Trail`).
- **SOS and OK messages and the alarm.** An `sos` event records the message
  under the normalised id, starts the alarm clip and queues two utterances:
  "SOS Alert", then "{id}: {message}". An `ok` event reads only the first
  element of its array. It stores the OK message under the normalised id, but
  deletes the SOS entry with the raw id. The alarm is paused and rewound
  exactly when no SOS is left. The SOS alert click clears the SOS and OK
  messages, cancels speech, rewinds the alarm and returns to the campus with
  follow mode on (module `Dashboard`).
- **Camera focus** (`MapUpdater`). With follow mode on and at least one car,
  the map centres on the one car or on the arithmetic mean of all cars'
  positions. With follow mode off it centres on the stored `mapCenter`
  (module `Camera`).
- **Display order** (`sortedCars`): the values of the registry sorted with the
  comparator `a.carId - b.carId` (module `Display`).

The component is the class `Dashboard.DashBoard`. Its fields are the six state
slots plus the alarm's playing flag, its playback position and the speech
queue. Each handler is one method that changes the fields atomically. Every
method keeps the invariant `Valid()`:

- the registry is a well-formed Map;
- the keys with a trail are exactly the keys in the registry;
- no trail holds more than 100 points;
- the alarm sounds exactly while some SOS message is recorded;
- a silent alarm is rewound.

The specification functions (`Registry.SetAll`, `Trail.UpdatePaths`) fold
over a batch. The batch loop `Dashboard.ApplyBatch` is proved against them.

Some behaviour a reader might expect of such a dashboard is absent from the
code; the model follows the code:

- There is no common id across types: a numeric id stays a number and other
  ids become strings.
- Coordinates are not validated. The model does not show what an invalid
  coordinate does, because it takes every coordinate as a present, finite
  number (see "Left out").
- A record is replaced, not merged.
- "Reset to Campus View" does not turn follow mode back on. The call is
  commented out at `src/components/dashBoard.jsx:664`.
- There is no warning channel and no position interpolation in the state.
- The map, and with it `MapUpdater`, is only mounted while the registry holds
  at least one car (`src/components/dashBoard.jsx:765`); otherwise a "No
  Vehicles Online" placeholder is shown. No handler removes a car, so the
  no-car case of the focus never reaches a drawn map.

## Model

| member | source | states |
|---|---|---|
| Ids.Normalise | src/components/dashBoard.jsx:353 | a number id stays a number key and every other id becomes a string key; the key prints as `String(carId)` prints the raw id |
| Ids.DeleteKey | src/components/dashBoard.jsx:382 | the key `delete(data.carId)` removes is the one the id was stored under (jsx:375) exactly when the id is a number or a string; for `null`, objects and other values it matches no key |
| Ids.NormaliseKeepsTypesApart | src/components/dashBoard.jsx:353 | a number id and a string id never share a key, whatever their digits, so `5` and `"5"` are two cars |
| Ids.NumberTextRoundTrip | src/components/dashBoard.jsx:457 | `NumericValue`, the number the comparator's `a.carId - b.carId` makes of a string id, reads a printed integer back as that integer, so a numeric id sent as text sorts by its value |
| Ids.NatTextRoundTrip | src/components/dashBoard.jsx:433 | the decimal text of a natural number is all digits and reads back as that number |
| Registry.Set | src/components/dashBoard.jsx:354 | `newCars.set(carId, {...car, carId})` keeps the Map well formed, adds the key, replaces its whole record with the new one whose `carId` is normalised, leaves other records alone, and appends the key to the order only when it was new |
| Registry.LastForIsLast | src/components/dashBoard.jsx:351-356 | the car that decides a key's record after a batch is the last car in the batch with that normalised id; there is none exactly when no car of the batch has it |
| Registry.SetAll | src/components/dashBoard.jsx:351-356 | the `forEach` of `set` over a batch keeps the Map well formed, and the keys it held keep their places at the front of the iteration order |
| Registry.SetAllOrder | src/components/dashBoard.jsx:351-356 | after a batch the Map iterates its old keys first, then the keys new to it in the order the batch first names them (`NewKeys`), which is the order `Array.from(cars.values())` lists the records in |
| Registry.Values | src/components/dashBoard.jsx:282 | `Array.from(cars.values())` lists one record per key, in insertion order |
| Registry.DistinctSize | src/components/dashBoard.jsx:281 | the Map's `size` equals the number of keys in its insertion order |
| Registry.SetAllLookupAt | src/components/dashBoard.jsx:351-356 | after `SetAll` runs a batch, a key is present exactly when it was before or the batch names it; its record is that of the batch's last car with the key, otherwise the old record |
| Registry.SetAllLookup | src/components/dashBoard.jsx:349-358 | the same for every key at once, with the Map well formed and old keys in their places |
| Registry.SetAllKnownKeys | src/components/dashBoard.jsx:354 | a batch of cars that are all already present does not change the Map's iteration order |
| Registry.SetAllIdempotent | src/components/dashBoard.jsx:409-414 | delivering the same batch to the registry twice leaves it as after one delivery |
| Registry.SetAllAgain | src/components/dashBoard.jsx:351-356 | a batch whose every car is present and already holds its final record changes nothing |
| Registry.FirstBatchOfTwo | src/components/dashBoard.jsx:349-358 | on the empty Map, a batch of two cars with different keys yields exactly those two records, in batch order |
| Registry.MixedIdsMakeTwoRecords | src/components/dashBoard.jsx:353-354 | a batch reporting car `5` and car `"5"` yields two records, keyed `5` and `"5"` |
| Trail.LastN | src/components/dashBoard.jsx:365 | `slice(-n)` returns n elements, or as many as a shorter sequence has |
| Trail.LastNSuffix | src/components/dashBoard.jsx:365 | `slice(-n)` returns exactly the last n elements in order, or the whole of a shorter sequence |
| Trail.AppendPointShape | src/components/dashBoard.jsx:364-365 | `AppendPoint`, `[...carPath, position].slice(-100)`: appending a point keeps the trail within 100 points; the new point is last, and the points before it are the newest of the old trail |
| Trail.LastNOfLastN | src/components/dashBoard.jsx:365 | cutting to the last n before appending and cutting again gives the same as cutting once after appending everything |
| Trail.AppendPointsKeepsLast | src/components/dashBoard.jsx:361-368 | appending points one `updatePath` at a time to a trail of at most 100 is the last 100 of the trail followed by all the points |
| Trail.PointsFor | src/components/dashBoard.jsx:355 | a batch contributes no points to a key's trail exactly when no car of the batch has that key |
| Trail.TrailOfUpdatePath | src/components/dashBoard.jsx:362-367 | `UpdatePath`, one `updatePath` call, creates the trail of its own key and changes no other key's trail |
| Trail.UpdatePathsTrailAt | src/components/dashBoard.jsx:351-356 | after `UpdatePaths`, the `updatePath` call at jsx:355 for every car of a batch, a key has a trail exactly when it had one or the batch names it, and that trail is the last 100 of the old trail followed by the key's positions in batch order |
| Trail.UpdatePathsTrailStep | src/components/dashBoard.jsx:355 | one more car of the batch extends its own key's trail by its position and no other trail |
| Trail.UpdatePathsTrails | src/components/dashBoard.jsx:355 | the same for every key at once, and no trail exceeds 100 points after a batch |
| Trail.DoubleDelivery | src/components/dashBoard.jsx:409-414 | with both `locationUpdate` listeners each running the batch, every trail receives each reported position twice, within the 100-point cap |
| Trail.DoubleDeliveryDuplicatesPoint | src/components/dashBoard.jsx:409-414 | a new car's first report leaves a two-point trail holding its position twice |
| Camera.Min | src/components/dashBoard.jsx:287 | helper for the centroid's bounds (the source computes no minimum): the smallest coordinate is one of them and no other is smaller |
| Camera.Max | src/components/dashBoard.jsx:287 | helper for the centroid's bounds (the source computes no maximum): the largest coordinate is one of them and no other is larger |
| Camera.SumBounds | src/components/dashBoard.jsx:287-288 | `Sum`, the `reduce` sum of n coordinates, lies between n times their lower bound and n times their upper bound |
| Camera.Mean | src/components/dashBoard.jsx:287-288 | `reduce(...) / length` is the mean: length copies of it add up to the sum; it lies between the smallest and the largest coordinate |
| Camera.Focus | src/components/dashBoard.jsx:280-293 | with follow mode off or no cars the map centre is the stored centre; for one car it is that car's position; for several its latitude and longitude are the means of the cars' latitudes and longitudes, within the box the cars span |
| Camera.SumOfConstant | src/components/dashBoard.jsx:287 | the sum of n equal coordinates is n times the coordinate |
| Camera.FocusOnGatheredCars | src/components/dashBoard.jsx:286-289 | when all cars stand at the same point, the followed centre is that point |
| Camera.TwoCarCentroid | src/components/dashBoard.jsx:287-289 | two cars at (0, 0) and (2, 2) are followed at (1, 1) |
| Display.Insert | src/components/dashBoard.jsx:457 | inserting a car into a sorted list loses and duplicates nothing |
| Display.SortById | src/components/dashBoard.jsx:457 | sorting the cars with the comparator `a.carId - b.carId` is a permutation of them; the comparator is `SortValue`, the number subtraction makes of an id (none for NaN), and `After`, a positive difference, so a NaN comparison counts as equal |
| Display.InsertAscending | src/components/dashBoard.jsx:457 | inserting a numeric-id car into an ascending list of numeric-id cars keeps it ascending |
| Display.SortAscending | src/components/dashBoard.jsx:457 | whenever every id is numeric, a number or a numeric string, the sorted list is in ascending id order |
| Display.HeadsAgree | src/components/dashBoard.jsx:457 | two ascending arrangements of the same cars with distinct numeric ids start with the same car |
| Display.Tail | src/components/dashBoard.jsx:457 | dropping the first car keeps a list ascending, numeric and distinctly keyed, and removes exactly that car |
| Display.DisplayOrderUnique | src/components/dashBoard.jsx:457 | two ascending arrangements of the same cars with distinct numeric ids are equal |
| Display.FleetSortAscending | src/components/dashBoard.jsx:457 | when every key of the registry is a number, its values are distinctly keyed and sorting them gives ascending ids |
| Display.FleetDisplayOrder | src/components/dashBoard.jsx:457 | when every key is a number, the sorted list is the only ascending arrangement of the registry, so the displayed order does not depend on how the sort is implemented |
| Dashboard.DashBoard.constructor | src/components/dashBoard.jsx:333-338 | the initial state: empty registry, trails and messages, centre at the campus (11.10223, 76.9659), follow mode on, alarm silent and rewound, nothing spoken |
| Dashboard.DashBoard.Focus | src/components/dashBoard.jsx:280-293 | the page centres on the stored centre when follow mode is off or there are no cars, on the car when there is exactly one, and on the mean position of the registry's cars when there are several |
| Dashboard.DashBoard.SortedCars | src/components/dashBoard.jsx:457 | `sortedCars` lists every record once, and in ascending id order whenever every id is numeric, whether a number or a numeric string |
| Dashboard.ApplyBatch | src/components/dashBoard.jsx:349-358 | the `forEach` loop over the batch ends with the registry and the trails the fold of `set` and `updatePath` over the batch |
| Dashboard.BatchStep | src/components/dashBoard.jsx:351-356 | one more car of the batch is one more `set` and one more `updatePath` |
| Dashboard.BatchKeepsAligned | src/components/dashBoard.jsx:347-368 | a batch keeps the registry well formed, the keys with a trail equal to the keys in the registry, and every trail within 100 points |
| Dashboard.DashBoard.UpdateCarData | src/components/dashBoard.jsx:347-359 | `updateCarData` upserts the batch into the registry and appends each position to its trail, keeps the invariant, and changes nothing else |
| Dashboard.DashBoard.OnLocationUpdate | src/components/dashBoard.jsx:409-414 | a `locationUpdate` leaves the registry as one delivery would, while every trail gets the batch's points twice |
| Dashboard.DashBoard.OnSos | src/components/dashBoard.jsx:417-427 | an SOS is recorded under the normalised id, replacing an earlier one; the alarm plays; "SOS Alert" and "{id}: {message}" are queued in that order, the second built by `Announcement` as `${carId}: ${message}` (jsx:433) |
| Dashboard.DashBoard.UpdateCarStatus | src/components/dashBoard.jsx:370-389 | an OK stores the first element's message under the normalised id and deletes the SOS under the raw id; the alarm is paused and rewound exactly when no SOS is left; an empty payload is reported as a failure and changes nothing |
| Dashboard.DashBoard.HandleCarInfoClick | src/components/dashBoard.jsx:439-442 | clicking a car or location turns follow mode off and pins the centre there, so the map focuses on the clicked point |
| Dashboard.DashBoard.HandleSosAlertClick | src/components/dashBoard.jsx:444-456 | clicking the SOS alert clears SOS and OK messages, cancels speech, pauses and rewinds the alarm, and returns to the campus with follow mode on |
| Dashboard.DashBoard.ToggleFollow | src/components/dashBoard.jsx:651 | the follow button flips follow mode and changes nothing else |
| Dashboard.DashBoard.ResetToCampus | src/components/dashBoard.jsx:662-665 | "Reset to Campus View" moves the centre to the campus and leaves follow mode as it was |
| Dashboard.TwoCarBatch | src/components/dashBoard.jsx:349-358 | the first batch of two distinct cars lists them in batch order |
| Dashboard.AlarmOutlastsFirstOk | src/components/dashBoard.jsx:380-388 | after SOS from cars 1 and 2, an OK from car 1 leaves the alarm playing and an OK from car 2 silences it |
| Dashboard.NullIdOkKeepsSos | src/components/dashBoard.jsx:375-382 | an SOS and an OK both with a `null` car id: the SOS stored under "null" is not deleted and the alarm keeps playing |
| Dashboard.ClickOverridesFollow | src/components/dashBoard.jsx:439-442 | cars at (0, 0) and (2, 2) are followed at (1, 1); after a click the focus stays on the clicked point however the cars move |

## Left out

- The socket.io connection and the backend URL are left out. Events are method calls with their payloads as parameters.
- The `console.log` calls and `getTimestamp` are left out.
- The Supabase track-history path is left out. `setTrackData` is not declared in the component, so that code would fail before it changed any state.
- React's mechanics are left out: state batching, functional updaters, effects and re-rendering. Each handler is one atomic transition.
- Server-side rendering guards are left out. The model assumes the window, the audio element and the speech engine exist.
- The alarm clip ending by itself and playback advancing `currentTime` are left out. Only playing, pausing and rewinding to 0 are modelled.
- Coordinates are taken to be present and finite. A batch entry with a missing or non-numeric latitude or longitude is stored as is by the source (jsx:354), puts an `undefined` point into the trail (jsx:355, 365) and makes the centroid NaN (jsx:287-288); the model cannot express such an entry.
- Coordinates are exact reals, not IEEE doubles. Rounding in the centroid sum and `toFixed` display formatting are left out.
- Ids: only integer numbers are modelled. Fractional, NaN and infinite ids, and the exponent form JavaScript prints for numbers of 1e21 and above, are left out.
- Ids: the sort comparator coerces a string id to a number only when it is an optional minus sign followed by digits. Strings JavaScript would also coerce (empty, padded with whitespace, hexadecimal, exponent forms) are treated as NaN.
- Display.SortById: modelled as a stable insertion sort. Its result is proved to be a permutation. It is proved ascending only when every id is numeric (a number or a numeric string), and the only ascending arrangement only when every key is a number. With a NaN-producing comparator the engine's order is implementation-defined, and stability is not stated.
- The iteration order of the SOS, OK and trail Maps is left out, so they are modelled as unordered maps. The SOS and OK Maps are only iterated for display, and `paths` is never read by the component at all.
- Payload fields other than id, coordinates, speed and course are left out, as are `ok` payloads that are not arrays.
- Dashboard.DashBoard.UpdateCarStatus: an empty payload makes the `setOkMessages` updater throw on `data.carId` (jsx:375) while React processes the update, an error the page does not catch. The model returns `failed` and leaves the state unchanged; what React does with the uncaught error is not modelled.
- Camera.Focus: its no-car case stands for a map that is not drawn, since the page mounts the map only while at least one car is registered (jsx:765, 898-912).
- JSX, icons, colours, `AnimatedMarker`, `map.setView` and `map.getZoom`, the sidebar toggle and the static location list are left out. Only the state the handlers change is modelled.
- The page wrapper in `src/app/page.js` is not part of this model.
