/** The records of `struct atc_plane` and `struct atc_airport`, with their C enums as integers. */
module Aircraft {
  import opened Words

  const ID_LENGTH := 6
  const MAX_PLANES := 50

  // enum atc_status
  const LANDED := 0
  const CRASHED := 1
  const FLYING := 2

  datatype Plane = Plane(
    id: seq<byte>,
    x: int,
    y: int,
    z: int,
    time: int,
    heading: int,
    elevation: int,
    speed: int,
    status: int)

  datatype Airport = Airport(x: int, y: int, id: seq<byte>)

  /** The value can be held by the C struct. */
  predicate Fits(p: Plane) {
    && |p.id| == ID_LENGTH
    && FitsInt(p.x) && FitsInt(p.y) && FitsInt(p.z) && FitsLong(p.time)
    && FitsInt(p.heading) && FitsInt(p.elevation) && FitsInt(p.speed) && FitsInt(p.status)
  }

  predicate FitsAirport(a: Airport) {
    FitsInt(a.x) && FitsInt(a.y) && |a.id| == 3
  }

  const NO_PLANE: Plane := Plane(Zeros(ID_LENGTH), 0, 0, 0, 0, 0, 0, 0, 0)
}
