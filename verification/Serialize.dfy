/**
 The wire formats of `src/protocol/serialize.c`: what each frame holds (functions),
 and the encoders and decoders that walk a pointer over a buffer (methods).
 */
module Serialize {
  import opened Words
  import opened Aircraft

  const MSG_LEN := 64
  const HEADER_LEN := 8
  const PLANE_LEN := 38
  const AIRPORT_LEN := 11

  // enum atc_req_type
  const REQ_SPEED_UP := 49
  const REQ_SPEED_DOWN := 50
  const REQ_TURN_LEFT := 51
  const REQ_TURN_RIGHT := 52
  const REQ_ASCEND := 53
  const REQ_DESCEND := 54
  const REQ_GET_PLANES := 55
  const REQ_GET_AIRPORTS := 56
  const REQ_JOIN := 57
  const REQ_LEAVE := 76
  const REQ_GET_LANDED := 77
  const REQ_GET_CRASHED := 78
  const REQ_CREATE_PLANE := 79

  // enum atc_res_type
  const RES_ACK := 97
  const RES_PLANES := 112
  const RES_AIRPORTS := 99

  datatype Request = Request(kind: int, plane: Plane)

  /** What a response carries; the C union holds exactly one of the three. */
  datatype Response = Ack(code: int) | PlaneList(planes: seq<Plane>) | AirportList(airports: seq<Airport>)

  predicate CarriesPlane(kind: int) {
    REQ_SPEED_UP <= kind <= REQ_DESCEND
  }

  // ---------------------------------------------------------------- planes

  function PlaneWire(p: Plane): (w: seq<byte>)
    requires Fits(p)
    ensures |w| == PLANE_LEN
  {
    p.id + IntBytes(p.x) + IntBytes(p.y) + IntBytes(p.z) + IntBytes(p.time)
    + IntBytes(p.heading) + IntBytes(p.elevation) + IntBytes(p.speed) + IntBytes(p.status)
  }

  function PlaneFrame(p: Plane, room: nat): (w: seq<byte>)
    requires Fits(p) && room >= PLANE_LEN
    ensures |w| == room
  {
    PlaneWire(p) + Zeros(room - PLANE_LEN)
  }

  /** The 32 bits of the time land in the low half of a zeroed 64-bit field. */
  function WirePlane(w: seq<byte>): (p: Plane)
    requires |w| >= PLANE_LEN
    ensures Fits(p)
  {
    Plane(w[..6], BytesInt(w[6..10]), BytesInt(w[10..14]), BytesInt(w[14..18]), Unsigned(BytesInt(w[18..22])),
          BytesInt(w[22..26]), BytesInt(w[26..30]), BytesInt(w[30..34]), BytesInt(w[34..38]))
  }

  /** The plane that comes out of a round trip over the wire. */
  function Truncated(p: Plane): Plane {
    p.(time := Unsigned(p.time))
  }

  /** The order of the fields of a plane on the wire. */
  lemma WireFields(p: Plane, tail: seq<byte>)
    requires Fits(p)
    ensures var w := PlaneWire(p) + tail;
      && w[..6] == p.id && w[6..10] == IntBytes(p.x) && w[10..14] == IntBytes(p.y)
      && w[14..18] == IntBytes(p.z) && w[18..22] == IntBytes(p.time) && w[22..26] == IntBytes(p.heading)
      && w[26..30] == IntBytes(p.elevation) && w[30..34] == IntBytes(p.speed) && w[34..38] == IntBytes(p.status)
  {
  }

  lemma PlaneRoundTrip(p: Plane, tail: seq<byte>)
    requires Fits(p)
    ensures WirePlane(PlaneWire(p) + tail) == Truncated(p)
    ensures WirePlane(PlaneWire(p) + tail) == p <==> 0 <= p.time < TWO32
  {
    hide IntBytes, BytesInt;
    WireFields(p, tail);
    BytesIntOfIntBytes(p.x);
    BytesIntOfIntBytes(p.y);
    BytesIntOfIntBytes(p.z);
    BytesIntOfIntBytes(p.time);
    BytesIntOfIntBytes(p.heading);
    BytesIntOfIntBytes(p.elevation);
    BytesIntOfIntBytes(p.speed);
    BytesIntOfIntBytes(p.status);
  }

  /** A frame survives decoding and encoding exactly when its unused tail is zero. */
  lemma FrameRoundTrip(w: seq<byte>)
    requires |w| >= PLANE_LEN
    ensures PlaneFrame(WirePlane(w), |w|) == w <==> w[PLANE_LEN..] == Zeros(|w| - PLANE_LEN)
  {
    hide IntBytes, BytesInt;
    IntBytesOfBytesInt(w[6..10]);
    IntBytesOfBytesInt(w[10..14]);
    IntBytesOfBytesInt(w[14..18]);
    IntBytesOfBytesInt(w[18..22]);
    IntBytesOfBytesInt(w[22..26]);
    IntBytesOfBytesInt(w[26..30]);
    IntBytesOfBytesInt(w[30..34]);
    IntBytesOfBytesInt(w[34..38]);
    var p := WirePlane(w);
    assert IntBytes(p.time) == w[18..22] by { UnsignedKeepsBytes(BytesInt(w[18..22])); }
    assert PlaneWire(p) == w[..PLANE_LEN];
    assert PlaneFrame(p, |w|)[PLANE_LEN..] == Zeros(|w| - PLANE_LEN);
    assert w == w[..PLANE_LEN] + w[PLANE_LEN..];
  }

  // --------------------------------------------------------------- airports

  function AirportWire(a: Airport): (w: seq<byte>)
    requires FitsAirport(a)
    ensures |w| == AIRPORT_LEN
  {
    IntBytes(a.x) + IntBytes(a.y) + a.id
  }

  function WireAirport(w: seq<byte>): (a: Airport)
    requires |w| >= AIRPORT_LEN
    ensures FitsAirport(a)
  {
    Airport(BytesInt(w[..4]), BytesInt(w[4..8]), w[8..11])
  }

  lemma AirportRoundTrip(a: Airport, tail: seq<byte>)
    requires FitsAirport(a)
    ensures WireAirport(AirportWire(a) + tail) == a
  {
    hide IntBytes, BytesInt;
    var w := AirportWire(a) + tail;
    assert w[..4] == IntBytes(a.x) && w[4..8] == IntBytes(a.y) && w[8..11] == a.id;
    BytesIntOfIntBytes(a.x);
    BytesIntOfIntBytes(a.y);
  }

  lemma AirportLayout(a: Airport)
    requires FitsAirport(a)
    ensures var w := AirportWire(a);
      |w| == 11 && w[..4] == IntBytes(a.x) && w[4..8] == IntBytes(a.y) && w[8..] == a.id
  {
    hide IntBytes;
  }

  lemma AirportFrameRoundTrip(w: seq<byte>)
    requires |w| >= AIRPORT_LEN
    ensures AirportWire(WireAirport(w)) == w[..AIRPORT_LEN]
  {
    IntBytesOfBytesInt(w[..4]);
    IntBytesOfBytesInt(w[4..8]);
  }

  // --------------------------------------------------------------- requests

  function RequestFrame(q: Request): (w: seq<byte>)
    requires FitsInt(q.kind) && Fits(q.plane)
    ensures |w| == MSG_LEN
  {
    IntBytes(q.kind) + if CarriesPlane(q.kind) then PlaneFrame(q.plane, MSG_LEN - 4) else Zeros(MSG_LEN - 4)
  }

  function FrameRequest(w: seq<byte>): (q: Request)
    requires |w| == MSG_LEN
    ensures FitsInt(q.kind) && Fits(q.plane)
  {
    var kind := BytesInt(w[..4]);
    Request(kind, if CarriesPlane(kind) then WirePlane(w[4..]) else NO_PLANE)
  }

  /** What the server sees of a request. */
  function Received(q: Request): Request {
    q.(plane := if CarriesPlane(q.kind) then Truncated(q.plane) else NO_PLANE)
  }

  /** 64 bytes: the kind, the plane of a command, and zeros. */
  lemma RequestLayout(q: Request)
    requires FitsInt(q.kind) && Fits(q.plane)
    ensures var w := RequestFrame(q);
      && |w| == 64 && w[..4] == IntBytes(q.kind)
      && (CarriesPlane(q.kind) ==> w[4..42] == PlaneWire(q.plane) && w[42..] == Zeros(22))
      && (!CarriesPlane(q.kind) ==> w[4..] == Zeros(60))
  {
    hide IntBytes, PlaneWire;
  }

  /** The numbers behind the names: the characters that the enumerations give, and which
      requests carry a plane. */
  lemma WireCodes()
    ensures [REQ_SPEED_UP, REQ_SPEED_DOWN, REQ_TURN_LEFT, REQ_TURN_RIGHT, REQ_ASCEND, REQ_DESCEND]
         == ['1' as int, '2' as int, '3' as int, '4' as int, '5' as int, '6' as int]
    ensures [REQ_GET_PLANES, REQ_GET_AIRPORTS, REQ_JOIN] == ['7' as int, '8' as int, '9' as int]
    ensures [REQ_LEAVE, REQ_GET_LANDED, REQ_GET_CRASHED, REQ_CREATE_PLANE]
         == ['L' as int, 'M' as int, 'N' as int, 'O' as int]
    ensures [RES_ACK, RES_PLANES, RES_AIRPORTS] == ['a' as int, 'p' as int, 'c' as int]
    ensures [LANDED, CRASHED, FLYING] == [0, 1, 2]
    ensures forall kind :: CarriesPlane(kind) <==> '1' as int <= kind <= '6' as int
  {
  }

  lemma RequestRoundTrip(q: Request)
    requires FitsInt(q.kind) && Fits(q.plane)
    ensures FrameRequest(RequestFrame(q)) == Received(q)
    ensures !CarriesPlane(q.kind) ==>
      FrameRequest(RequestFrame(q)).plane == Plane([0, 0, 0, 0, 0, 0], 0, 0, 0, 0, 0, 0, 0, 0)
  {
    hide IntBytes, BytesInt;
    var w := RequestFrame(q);
    assert w[..4] == IntBytes(q.kind);
    BytesIntOfIntBytes(q.kind);
    if CarriesPlane(q.kind) {
      assert w[4..] == PlaneWire(q.plane) + Zeros(MSG_LEN - 4 - PLANE_LEN);
      PlaneRoundTrip(q.plane, Zeros(MSG_LEN - 4 - PLANE_LEN));
    }
  }

  // ---------------------------------------------------------------- headers

  predicate KnownKind(kind: int) {
    kind == RES_ACK || kind == RES_PLANES || kind == RES_AIRPORTS
  }

  function HeaderBytes(kind: int, payload: int): (w: seq<byte>)
    ensures |w| == HEADER_LEN
  {
    IntBytes(kind) + IntBytes(payload)
  }

  function HeaderKind(w: seq<byte>): (kind: int)
    requires |w| == HEADER_LEN
  {
    BytesInt(w[..4])
  }

  function HeaderPayload(w: seq<byte>): (payload: int)
    requires |w| == HEADER_LEN
  {
    BytesInt(w[4..])
  }

  lemma HeaderLayout(kind: int, payload: int)
    ensures var w := HeaderBytes(kind, payload);
      |w| == 8 && w[..4] == IntBytes(kind) && w[4..] == IntBytes(payload)
  {
    hide IntBytes;
  }

  lemma HeaderRoundTrip(kind: int, payload: int)
    requires FitsInt(kind) && FitsInt(payload)
    ensures HeaderKind(HeaderBytes(kind, payload)) == kind
    ensures HeaderPayload(HeaderBytes(kind, payload)) == payload
  {
    hide IntBytes, BytesInt;
    var w := HeaderBytes(kind, payload);
    assert w[..4] == IntBytes(kind) && w[4..] == IntBytes(payload);
    BytesIntOfIntBytes(kind);
    BytesIntOfIntBytes(payload);
  }

  /** How many frames the reader fetches after this header. */
  function FrameCount(w: seq<byte>): (n: nat)
    requires |w| == HEADER_LEN
  {
    var kind := HeaderKind(w);
    if kind == RES_PLANES || kind == RES_AIRPORTS
    then (if HeaderPayload(w) > 0 then HeaderPayload(w) else 0)
    else 0
  }

  // ------------------------------------------------- buffers and pointers

  method SndStrn(wire: array<byte>, ptr: nat, str: seq<byte>) returns (next: nat)
    requires ptr + |str| <= wire.Length
    modifies wire
    ensures next == ptr + |str|
    ensures wire[..] == Overwrite(old(wire[..]), ptr, str)
  {
    ghost var was := wire[..];
    for i := 0 to |str|
      invariant wire[..] == was[..ptr] + str[..i] + was[ptr + i..]
    {
      wire[ptr + i] := str[i];
    }
    next := ptr + |str|;
  }

  method SndInt(wire: array<byte>, ptr: nat, x: int) returns (next: nat)
    requires ptr + 4 <= wire.Length
    modifies wire
    ensures next == ptr + 4
    ensures wire[..] == Overwrite(old(wire[..]), ptr, IntBytes(x))
  {
    next := SndStrn(wire, ptr, IntBytes(x));
  }

  method GetInt(wire: array<byte>, ptr: nat) returns (next: nat, x: int)
    requires ptr + 4 <= wire.Length
    ensures next == ptr + 4 && x == BytesInt(wire[ptr..ptr + 4])
  {
    x := BytesInt(wire[ptr..ptr + 4]);
    next := ptr + 4;
  }

  /** `_get_int` finds what `_snd_int` wrote, wherever in a buffer and whatever it held. */
  lemma IntReadBack(s: seq<byte>, at: nat, x: int)
    requires at + 4 <= |s| && FitsInt(x)
    ensures BytesInt(Overwrite(s, at, IntBytes(x))[at..at + 4]) == x
  {
    hide IntBytes, BytesInt;
    assert Overwrite(s, at, IntBytes(x))[at..at + 4] == IntBytes(x);
    BytesIntOfIntBytes(x);
    SignedOfUnsigned(x);
  }

  /** Encodes a plane at `ptr`, clearing everything from there to the end of the buffer first. */
  method AtcPlaneToWire(plane: Plane, wire: array<byte>, ptr: nat) returns (next: nat)
    requires Fits(plane) && ptr + PLANE_LEN <= wire.Length
    modifies wire
    ensures next == ptr + PLANE_LEN
    ensures wire[..] == old(wire[..])[..ptr] + PlaneFrame(plane, wire.Length - ptr)
  {
    hide IntBytes, PlaneWire;
    next := SndStrn(wire, ptr, Zeros(wire.Length - ptr));
    ghost var clear := wire[..];
    next := SndStrn(wire, next - (wire.Length - ptr), plane.id);
    next := SndInt(wire, next, plane.x);
    OverwriteTwice(clear, ptr, plane.id, IntBytes(plane.x));
    ghost var a := plane.id + IntBytes(plane.x);
    next := SndInt(wire, next, plane.y);
    OverwriteTwice(clear, ptr, a, IntBytes(plane.y));
    a := a + IntBytes(plane.y);
    next := SndInt(wire, next, plane.z);
    OverwriteTwice(clear, ptr, a, IntBytes(plane.z));
    a := a + IntBytes(plane.z);
    next := SndInt(wire, next, plane.time);
    OverwriteTwice(clear, ptr, a, IntBytes(plane.time));
    a := a + IntBytes(plane.time);
    next := SndInt(wire, next, plane.heading);
    OverwriteTwice(clear, ptr, a, IntBytes(plane.heading));
    a := a + IntBytes(plane.heading);
    next := SndInt(wire, next, plane.elevation);
    OverwriteTwice(clear, ptr, a, IntBytes(plane.elevation));
    a := a + IntBytes(plane.elevation);
    next := SndInt(wire, next, plane.speed);
    OverwriteTwice(clear, ptr, a, IntBytes(plane.speed));
    a := a + IntBytes(plane.speed);
    next := SndInt(wire, next, plane.status);
    OverwriteTwice(clear, ptr, a, IntBytes(plane.status));
    a := a + IntBytes(plane.status);
    FieldsInOrder(plane, a);
    ClearedThenWritten(old(wire[..]), clear, ptr, plane);
  }

  lemma FieldsInOrder(plane: Plane, a: seq<byte>)
    requires Fits(plane)
    requires a == plane.id + IntBytes(plane.x) + IntBytes(plane.y) + IntBytes(plane.z) + IntBytes(plane.time)
                  + IntBytes(plane.heading) + IntBytes(plane.elevation) + IntBytes(plane.speed) + IntBytes(plane.status)
    ensures a == PlaneWire(plane)
  {
  }

  lemma ClearedThenWritten(was: seq<byte>, clear: seq<byte>, ptr: nat, plane: Plane)
    requires Fits(plane) && ptr + PLANE_LEN <= |was|
    requires clear == Overwrite(was, ptr, Zeros(|was| - ptr))
    ensures Overwrite(clear, ptr, PlaneWire(plane)) == was[..ptr] + PlaneFrame(plane, |was| - ptr)
  {
    hide PlaneWire;
  }

  method AtcWireToPlane(wire: array<byte>, ptr: nat) returns (next: nat, plane: Plane)
    requires ptr + PLANE_LEN <= wire.Length
    ensures next == ptr + PLANE_LEN
    ensures plane == WirePlane(wire[ptr..])
  {
    var x, y, z, time, heading, elevation, speed, status: int;
    var id := wire[ptr..ptr + ID_LENGTH];
    next, x := GetInt(wire, ptr + ID_LENGTH);
    next, y := GetInt(wire, next);
    next, z := GetInt(wire, next);
    next, time := GetInt(wire, next);
    next, heading := GetInt(wire, next);
    next, elevation := GetInt(wire, next);
    next, speed := GetInt(wire, next);
    next, status := GetInt(wire, next);
    plane := Plane(id, x, y, z, Unsigned(time), heading, elevation, speed, status);
    ghost var w := wire[ptr..];
    SlicesOfTail(wire[..], ptr);
  }

  lemma SlicesOfTail(s: seq<byte>, ptr: nat)
    requires ptr + PLANE_LEN <= |s|
    ensures forall i, j {:trigger s[ptr..][i..j]} :: 0 <= i <= j <= |s| - ptr ==> s[ptr..][i..j] == s[ptr + i..ptr + j]
  {
  }

  /** Only the first eleven bytes are written; the rest of the frame is whatever the buffer held. */
  method AtcAirportToWire(airport: Airport, wire: array<byte>) returns (next: nat)
    requires FitsAirport(airport) && wire.Length >= AIRPORT_LEN
    modifies wire
    ensures next == AIRPORT_LEN
    ensures wire[..] == Overwrite(old(wire[..]), 0, AirportWire(airport))
  {
    ghost var was := wire[..];
    next := SndInt(wire, 0, airport.x);
    next := SndInt(wire, next, airport.y);
    OverwriteTwice(was, 0, IntBytes(airport.x), IntBytes(airport.y));
    next := SndStrn(wire, next, airport.id);
    OverwriteTwice(was, 0, IntBytes(airport.x) + IntBytes(airport.y), airport.id);
  }

  method AtcWireToAirport(wire: array<byte>) returns (next: nat, airport: Airport)
    requires wire.Length >= AIRPORT_LEN
    ensures next == AIRPORT_LEN
    ensures airport == WireAirport(wire[..])
  {
    var x, y: int;
    next, x := GetInt(wire, 0);
    next, y := GetInt(wire, next);
    airport := Airport(x, y, wire[next..next + 3]);
    next := next + 3;
    assert wire[..][..4] == wire[0..4] && wire[..][4..8] == wire[4..8] && wire[..][8..11] == wire[8..11];
  }

  /** Where the pointer ends up: behind the plane, or behind the kind. */
  function RequestEnd(kind: int): nat {
    if CarriesPlane(kind) then 4 + PLANE_LEN else 4
  }

  method AtcReqToWire(req: Request, wire: array<byte>) returns (next: nat)
    requires FitsInt(req.kind) && Fits(req.plane) && wire.Length == MSG_LEN
    modifies wire
    ensures wire[..] == RequestFrame(req)
    ensures next == RequestEnd(req.kind)
  {
    next := SndInt(wire, 0, req.kind);
    if CarriesPlane(req.kind) {
      next := AtcPlaneToWire(req.plane, wire, next);
    } else {
      var end := SndStrn(wire, next, Zeros(MSG_LEN - next));
    }
  }

  method AtcWireToReq(wire: array<byte>) returns (next: nat, req: Request)
    requires wire.Length == MSG_LEN
    ensures req == FrameRequest(wire[..])
    ensures next == RequestEnd(req.kind)
  {
    var kind: int;
    next, kind := GetInt(wire, 0);
    assert wire[..][..4] == wire[0..4] && wire[..][4..] == wire[4..];
    if CarriesPlane(kind) {
      var plane: Plane;
      next, plane := AtcWireToPlane(wire, next);
      req := Request(kind, plane);
    } else {
      req := Request(kind, NO_PLANE);
    }
  }

  /** Returns -1, with only the kind written, when the kind is not one of the three. */
  method AtcResToHeader(kind: int, payload: int, wire: array<byte>) returns (r: int)
    requires wire.Length == HEADER_LEN
    modifies wire
    ensures KnownKind(kind) ==> r == HEADER_LEN && wire[..] == HeaderBytes(kind, payload)
    ensures !KnownKind(kind) ==> r == -1 && wire[..] == Overwrite(old(wire[..]), 0, IntBytes(kind))
  {
    ghost var was := wire[..];
    var next := SndInt(wire, 0, kind);
    if !KnownKind(kind) {
      return -1;
    }
    next := SndInt(wire, next, payload);
    OverwriteTwice(was, 0, IntBytes(kind), IntBytes(payload));
    r := next;
  }

  method AtcHeaderToRes(wire: array<byte>) returns (r: int, kind: int, payload: int)
    requires wire.Length == HEADER_LEN
    ensures kind == HeaderKind(wire[..]) && payload == HeaderPayload(wire[..])
    ensures r == if KnownKind(kind) then HEADER_LEN else -1
  {
    var next: nat;
    next, kind := GetInt(wire, 0);
    next, payload := GetInt(wire, next);
    assert wire[..][..4] == wire[0..4] && wire[..][4..] == wire[4..8];
    r := if KnownKind(kind) then next else -1;
  }
}
