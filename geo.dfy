/** Map coordinates, as the dashboard's `{ lat, lng }` objects. */
module Geo {

  /** A point in decimal degrees; JavaScript doubles become exact reals. */
  datatype LatLng = LatLng(lat: real, lng: real)

  /** The campus centre the map starts on and returns to. */
  const Home: LatLng := LatLng(11.10223, 76.9659)
}
