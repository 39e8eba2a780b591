/**
 The framing of `src/protocol/proto.c`: a response is a header and the frames it
 announces, written to and read from a byte stream.
 */
module Proto {
  import opened Words
  import opened Aircraft
  import opened Serialize
  import opened Exchange

  const TAIL := MSG_LEN - AIRPORT_LEN

  // ------------------------------------------------------------- chunks

  function Kind(res: Response): int {
    match res
    case Ack(_) => RES_ACK
    case PlaneList(_) => RES_PLANES
    case AirportList(_) => RES_AIRPORTS
  }

  function Payload(res: Response): int {
    match res
    case Ack(code) => code
    case PlaneList(planes) => |planes|
    case AirportList(airports) => |airports|
  }

  /** The response fits the C structs and its length an `int`. */
  predicate Sendable(res: Response) {
    && FitsInt(Payload(res))
    && match res
       case Ack(_) => true
       case PlaneList(planes) => forall i :: 0 <= i < |planes| ==> Fits(planes[i])
       case AirportList(airports) => forall i :: 0 <= i < |airports| ==> FitsAirport(airports[i])
  }

  function FrameTotal(res: Response): nat {
    match res
    case Ack(_) => 0
    case PlaneList(planes) => |planes|
    case AirportList(airports) => |airports|
  }

  /** One frame; the encoder of airports leaves `junk` behind its eleven bytes. */
  function Frame(res: Response, i: nat, junk: seq<byte>): (f: seq<byte>)
    requires Sendable(res) && i < FrameTotal(res) && |junk| == TAIL
    ensures |f| == MSG_LEN
  {
    match res
    case PlaneList(planes) => PlaneFrame(planes[i], MSG_LEN)
    case AirportList(airports) => AirportWire(airports[i]) + junk
  }

  /** A response as it is sent, call of `transport_send` by call. */
  function Chunks(res: Response, junk: seq<byte>): (chunks: seq<seq<byte>>)
    requires Sendable(res) && |junk| == TAIL
    ensures |chunks| == 1 + FrameTotal(res)
    ensures chunks[0] == HeaderBytes(Kind(res), Payload(res))
    ensures forall i :: 1 <= i < |chunks| ==> chunks[i] == Frame(res, i - 1, junk)
  {
    [HeaderBytes(Kind(res), Payload(res))]
    + seq(FrameTotal(res), i requires 0 <= i < FrameTotal(res) => Frame(res, i, junk))
  }

  lemma ChunksAreShaped(res: Response, junk: seq<byte>)
    requires Sendable(res) && |junk| == TAIL
    ensures ReplyShape(Chunks(res, junk)) && HeaderKind(Chunks(res, junk)[0]) == Kind(res)
  {
    HeaderRoundTrip(Kind(res), Payload(res));
    hide HeaderKind, HeaderPayload, HeaderBytes, Frame;
  }

  // ------------------------------------------------------------- reading

  /** The frames of a response as the reader decodes them, one by one. */
  function Decode(kind: int, payload: int, frames: seq<seq<byte>>): Response
    requires forall i :: 0 <= i < |frames| ==> |frames[i]| == MSG_LEN
  {
    if kind == RES_PLANES then
      PlaneList(seq(|frames|, i requires 0 <= i < |frames| => WirePlane(frames[i])))
    else if kind == RES_AIRPORTS then
      AirportList(seq(|frames|, i requires 0 <= i < |frames| => WireAirport(frames[i])))
    else Ack(payload)
  }

  function DecodeChunks(chunks: seq<seq<byte>>): Response
    requires ReplyShape(chunks)
  {
    Decode(HeaderKind(chunks[0]), HeaderPayload(chunks[0]), chunks[1..])
  }

  /** What arrives: planes with the time cut to 32 bits. */
  function Delivered(res: Response): Response {
    match res
    case Ack(_) => res
    case PlaneList(planes) => PlaneList(seq(|planes|, i requires 0 <= i < |planes| => Truncated(planes[i])))
    case AirportList(_) => res
  }

  lemma ResponseRoundTrip(res: Response, junk: seq<byte>)
    requires Sendable(res) && |junk| == TAIL
    ensures ReplyShape(Chunks(res, junk)) && DecodeChunks(Chunks(res, junk)) == Delivered(res)
  {
    hide HeaderKind, HeaderPayload, HeaderBytes, PlaneWire, WirePlane, AirportWire, WireAirport, Zeros;
    ChunksAreShaped(res, junk);
    HeaderRoundTrip(Kind(res), Payload(res));
    forall i | 0 <= i < FrameTotal(res)
      ensures res.PlaneList? ==> WirePlane(Frame(res, i, junk)) == Truncated(res.planes[i])
      ensures res.AirportList? ==> WireAirport(Frame(res, i, junk)) == res.airports[i]
    {
      if res.PlaneList? {
        PlaneRoundTrip(res.planes[i], Zeros(MSG_LEN - PLANE_LEN));
      } else {
        AirportRoundTrip(res.airports[i], junk);
      }
    }
  }

  // ------------------------------------------------------------- streams

  datatype Parsed = Parsed(res: Response, rest: seq<byte>) | Incomplete | Unknown

  function Cut(s: seq<byte>, n: nat): (frames: seq<seq<byte>>)
    requires |s| >= MSG_LEN * n
    ensures |frames| == n && forall i :: 0 <= i < n ==> |frames[i]| == MSG_LEN
  {
    if n == 0 then [] else Cut(s[..MSG_LEN * (n - 1)], n - 1) + [s[MSG_LEN * (n - 1)..MSG_LEN * n]]
  }

  /** `_atc_read_response` on the bytes that are there. */
  function ReadResponse(s: seq<byte>): Parsed {
    if |s| < HEADER_LEN then Incomplete
    else
      var header := s[..HEADER_LEN];
      var n := FrameCount(header);
      if !KnownKind(HeaderKind(header)) then Unknown
      else if |s| < HEADER_LEN + MSG_LEN * n then Incomplete
      else Parsed(Decode(HeaderKind(header), HeaderPayload(header), Cut(s[HEADER_LEN..HEADER_LEN + MSG_LEN * n], n)),
                  s[HEADER_LEN + MSG_LEN * n..])
  }

  function ReadAll(s: seq<byte>): (seq<Response>, seq<byte>)
    decreases |s|
  {
    match ReadResponse(s)
    case Parsed(res, rest) => var (more, left) := ReadAll(rest); ([res] + more, left)
    case _ => ([], s)
  }

  lemma {:induction false} CutOfFrames(frames: seq<seq<byte>>)
    requires forall i :: 0 <= i < |frames| ==> |frames[i]| == MSG_LEN
    ensures |Concat(frames)| == MSG_LEN * |frames| && Cut(Concat(frames), |frames|) == frames
  {
    if frames != [] {
      var n := |frames| - 1;
      CutOfFrames(frames[..n]);
      assert Concat(frames)[..MSG_LEN * n] == Concat(frames[..n]);
      assert Concat(frames)[MSG_LEN * n..MSG_LEN * (n + 1)] == frames[n];
      assert frames == frames[..n] + [frames[n]];
    }
  }

  lemma {:induction false} ConcatFirst(parts: seq<seq<byte>>)
    requires parts != []
    ensures Concat(parts) == parts[0] + Concat(parts[1..])
  {
    var n := |parts| - 1;
    if n > 0 {
      ConcatFirst(parts[..n]);
      assert parts[..n][1..] == parts[1..][..n - 1];
    }
  }

  lemma ReadOne(res: Response, junk: seq<byte>, tail: seq<byte>)
    requires Sendable(res) && |junk| == TAIL
    ensures ReadResponse(Concat(Chunks(res, junk)) + tail) == Parsed(Delivered(res), tail)
  {
    hide HeaderKind, HeaderPayload, HeaderBytes, FrameCount, Frame, Decode, Cut, Concat, Chunks;
    var chunks := Chunks(res, junk);
    ResponseRoundTrip(res, junk);
    ChunksAreShaped(res, junk);
    ConcatFirst(chunks);
    CutOfFrames(chunks[1..]);
    var s, body := Concat(chunks) + tail, Concat(chunks[1..]);
    assert s == chunks[0] + body + tail;
    assert s[..HEADER_LEN] == chunks[0];
    assert s[HEADER_LEN..HEADER_LEN + |body|] == body;
    assert s[HEADER_LEN + |body|..] == tail;
  }

  /** What the buffers held, one for each response. */
  predicate TailShaped(junks: seq<seq<byte>>) {
    forall i :: 0 <= i < |junks| ==> |junks[i]| == TAIL
  }

  /** The bytes of a sequence of responses. */
  function Stream(responses: seq<Response>, junks: seq<seq<byte>>): seq<byte>
    requires |junks| == |responses| && TailShaped(junks)
    requires forall i :: 0 <= i < |responses| ==> Sendable(responses[i])
  {
    if responses == [] then []
    else Concat(Chunks(responses[0], junks[0])) + Stream(responses[1..], junks[1..])
  }

  function DeliveredAll(responses: seq<Response>): (r: seq<Response>)
    ensures |r| == |responses| && forall i :: 0 <= i < |r| ==> r[i] == Delivered(responses[i])
  {
    seq(|responses|, i requires 0 <= i < |responses| => Delivered(responses[i]))
  }

  /** Any sequence of responses is read back as the same sequence with nothing left over. */
  lemma {:induction false} StreamRoundTrip(responses: seq<Response>, junks: seq<seq<byte>>)
    requires |junks| == |responses| && TailShaped(junks)
    requires forall i :: 0 <= i < |responses| ==> Sendable(responses[i])
    ensures ReadAll(Stream(responses, junks)) == (DeliveredAll(responses), [])
  {
    hide Sendable, Chunks, Concat, Delivered, ReadResponse;
    if responses == [] {
      NothingToRead();
    } else {
      ReadOne(responses[0], junks[0], Stream(responses[1..], junks[1..]));
      StreamRoundTrip(responses[1..], junks[1..]);
      assert DeliveredAll(responses) == [Delivered(responses[0])] + DeliveredAll(responses[1..]);
    }
  }

  lemma NothingToRead()
    ensures ReadResponse([]) == Incomplete
  {
  }

  // ------------------------------------------------------------- the program

  /** One direction of a connection, seen by a reader whose blocking calls return in the end. */
  class Pipe {
    var bytes: seq<byte>

    constructor ()
      ensures bytes == []
    {
      bytes := [];
    }

    /** `transport_send`. */
    method Send(buffer: array<byte>)
      modifies this
      ensures bytes == old(bytes) + buffer[..]
    {
      bytes := bytes + buffer[..];
    }

    /** `transport_recv`: fills the whole buffer. */
    method Recv(buffer: array<byte>)
      requires |bytes| >= buffer.Length
      modifies this, buffer
      ensures buffer[..] == old(bytes)[..buffer.Length] && bytes == old(bytes)[buffer.Length..]
    {
      forall i | 0 <= i < buffer.Length {
        buffer[i] := bytes[i];
      }
      bytes := bytes[buffer.Length..];
    }
  }

  lemma OneMoreChunk(was: seq<byte>, chunks: seq<seq<byte>>, i: nat)
    requires i < |chunks|
    ensures was + Concat(chunks[..i]) + chunks[i] == was + Concat(chunks[..i + 1])
  {
    ConcatNext(chunks, i);
    hide Concat;
  }

  lemma AllChunks(chunks: seq<seq<byte>>)
    ensures chunks[..|chunks|] == chunks && Concat(chunks[..0]) == []
  {
    ConcatNone(chunks);
    hide Concat;
  }

  function PlaneFrames(planes: seq<Plane>): (frames: seq<seq<byte>>)
    requires Sendable(PlaneList(planes))
    ensures |frames| == |planes| && forall i :: 0 <= i < |frames| ==> frames[i] == PlaneFrame(planes[i], MSG_LEN)
  {
    seq(|planes|, i requires 0 <= i < |planes| => PlaneFrame(planes[i], MSG_LEN))
  }

  lemma PlaneChunks(planes: seq<Plane>, junk: seq<byte>)
    requires Sendable(PlaneList(planes)) && |junk| == TAIL
    ensures Chunks(PlaneList(planes), junk)[1..] == PlaneFrames(planes)
  {
    hide PlaneFrame, HeaderBytes;
  }

  /** `_atc_write_planes`. */
  method AtcWritePlanes(planes: seq<Plane>, output: Pipe) returns (r: int)
    requires Sendable(PlaneList(planes))
    modifies output
    ensures r == |planes| && output.bytes == old(output.bytes) + Concat(PlaneFrames(planes))
  {
    hide Concat, PlaneFrame, FitsInt, Fits, PlaneFrames;
    ghost var was, frames := output.bytes, PlaneFrames(planes);
    var buffer := new byte[MSG_LEN];
    AllChunks(frames);
    r := 0;
    while r < |planes|
      invariant 0 <= r <= |planes| && output.bytes == was + Concat(frames[..r])
    {
      assert Fits(planes[r]);
      var end := AtcPlaneToWire(planes[r], buffer, 0);
      assert buffer[..] == frames[r];
      output.Send(buffer);
      OneMoreChunk(was, frames, r);
      r := r + 1;
    }
  }

  /** `_atc_write_airports`; `junk` is what the buffer held behind the eleven bytes of a frame. */
  method AtcWriteAirports(airports: seq<Airport>, output: Pipe) returns (r: int, ghost junk: seq<byte>)
    requires Sendable(AirportList(airports))
    modifies output
    ensures |junk| == TAIL && output.bytes == old(output.bytes) + Concat(Chunks(AirportList(airports), junk)[1..])
    ensures r == |airports|
  {
    hide Concat, AirportWire, FitsInt, FitsAirport, Chunks;
    var buffer := new byte[MSG_LEN];
    junk := buffer[AIRPORT_LEN..];
    ghost var was, chunks := output.bytes, Chunks(AirportList(airports), junk);
    ghost var frames := chunks[1..];
    assert forall i :: 0 <= i < |frames| ==> frames[i] == AirportWire(airports[i]) + junk;
    AllChunks(frames);
    r := 0;
    while r < |airports|
      invariant 0 <= r <= |airports| && output.bytes == was + Concat(frames[..r])
      invariant buffer[AIRPORT_LEN..] == junk
    {
      assert FitsAirport(airports[r]);
      var end := AtcAirportToWire(airports[r], buffer);
      assert buffer[..] == frames[r];
      output.Send(buffer);
      OneMoreChunk(was, frames, r);
      r := r + 1;
    }
  }

  /** `_atc_write_response`. */
  method AtcWriteResponse(res: Response, output: Pipe) returns (r: int, ghost junk: seq<byte>)
    requires Sendable(res)
    modifies output
    ensures |junk| == TAIL && output.bytes == old(output.bytes) + Concat(Chunks(res, junk))
    ensures r == FrameTotal(res)
  {
    hide Concat, HeaderBytes, Sendable;
    var header := new byte[HEADER_LEN];
    var h := AtcResToHeader(Kind(res), Payload(res), header);
    output.Send(header);
    r, junk := 0, Zeros(TAIL);
    if res.PlaneList? {
      r := AtcWritePlanes(res.planes, output);
      PlaneChunks(res.planes, junk);
    } else if res.AirportList? {
      r, junk := AtcWriteAirports(res.airports, output);
    } else {
      assert Chunks(res, junk)[1..] == [];
      ConcatNone([]);
    }
    ConcatFirst(Chunks(res, junk));
  }

  lemma {:induction false} CutAt(s: seq<byte>, n: nat, i: nat)
    requires |s| >= MSG_LEN * n && i < n
    ensures MSG_LEN * (i + 1) <= |s| && Cut(s, n)[i] == s[MSG_LEN * i..MSG_LEN * (i + 1)]
  {
    if i < n - 1 {
      CutAt(s[..MSG_LEN * (n - 1)], n - 1, i);
    }
  }

  lemma NextFrame(s: seq<byte>, n: nat, i: nat)
    requires |s| >= MSG_LEN * n && i < n
    ensures |s[MSG_LEN * i..]| >= MSG_LEN
    ensures s[MSG_LEN * i..][..MSG_LEN] == Cut(s, n)[i]
    ensures s[MSG_LEN * i..][MSG_LEN..] == s[MSG_LEN * (i + 1)..]
  {
    CutAt(s, n, i);
    hide Cut;
  }

  function AtLeastZero(n: int): nat {
    if n > 0 then n else 0
  }

  /** `_atc_read_planes`. */
  method AtcReadPlanes(input: Pipe, maxPlanes: int) returns (r: int, planes: seq<Plane>)
    requires |input.bytes| >= MSG_LEN * AtLeastZero(maxPlanes)
    modifies input
    ensures var n := AtLeastZero(maxPlanes);
      && r == maxPlanes && input.bytes == old(input.bytes)[MSG_LEN * n..]
      && PlaneList(planes) == Decode(RES_PLANES, maxPlanes, Cut(old(input.bytes), n))
  {
    hide Cut, WirePlane;
    ghost var s, n := input.bytes, AtLeastZero(maxPlanes);
    var buffer := new byte[MSG_LEN];
    planes := [];
    var idx := 0;
    while idx < maxPlanes
      invariant 0 <= idx <= n && |planes| == idx && input.bytes == s[MSG_LEN * idx..]
      invariant forall i :: 0 <= i < idx ==> planes[i] == WirePlane(Cut(s, n)[i])
    {
      NextFrame(s, n, idx);
      input.Recv(buffer);
      var next, plane := AtcWireToPlane(buffer, 0);
      assert buffer[0..] == buffer[..];
      planes := planes + [plane];
      idx := idx + 1;
    }
    r := maxPlanes;
  }

  /** `_atc_read_airports`. */
  method AtcReadAirports(input: Pipe, maxAirports: int) returns (r: int, airports: seq<Airport>)
    requires |input.bytes| >= MSG_LEN * AtLeastZero(maxAirports)
    modifies input
    ensures var n := AtLeastZero(maxAirports);
      && r == maxAirports && input.bytes == old(input.bytes)[MSG_LEN * n..]
      && AirportList(airports) == Decode(RES_AIRPORTS, maxAirports, Cut(old(input.bytes), n))
  {
    hide Cut, WireAirport;
    ghost var s, n := input.bytes, AtLeastZero(maxAirports);
    var buffer := new byte[MSG_LEN];
    airports := [];
    var idx := 0;
    while idx < maxAirports
      invariant 0 <= idx <= n && |airports| == idx && input.bytes == s[MSG_LEN * idx..]
      invariant forall i :: 0 <= i < idx ==> airports[i] == WireAirport(Cut(s, n)[i])
    {
      NextFrame(s, n, idx);
      input.Recv(buffer);
      var next, airport := AtcWireToAirport(buffer);
      airports := airports + [airport];
      idx := idx + 1;
    }
    r := maxAirports;
  }

  /** What `ReadResponse` does with the bytes behind a good header. */
  lemma ReadBody(s: seq<byte>)
    requires |s| >= HEADER_LEN && KnownKind(HeaderKind(s[..HEADER_LEN]))
    ensures var kind, payload, body := HeaderKind(s[..HEADER_LEN]), HeaderPayload(s[..HEADER_LEN]), s[HEADER_LEN..];
      var n := if kind == RES_ACK then 0 else AtLeastZero(payload);
      ReadResponse(s) ==
        if |body| < MSG_LEN * n then Incomplete
        else Parsed(Decode(kind, payload, Cut(body, n)), body[MSG_LEN * n..])
  {
    var body, n := s[HEADER_LEN..], FrameCount(s[..HEADER_LEN]);
    hide HeaderKind, HeaderPayload, Cut;
    if |body| >= MSG_LEN * n {
      CutPrefix(body, n);
      assert s[HEADER_LEN..HEADER_LEN + MSG_LEN * n] == body[..MSG_LEN * n];
      assert s[HEADER_LEN + MSG_LEN * n..] == body[MSG_LEN * n..];
    }
  }

  lemma CutPrefixAt(s: seq<byte>, n: nat, i: nat)
    requires |s| >= MSG_LEN * n && i < n
    ensures Cut(s[..MSG_LEN * n], n)[i] == Cut(s, n)[i]
  {
    hide Cut;
    CutAt(s, n, i);
    CutAt(s[..MSG_LEN * n], n, i);
  }

  lemma CutPrefix(s: seq<byte>, n: nat)
    requires |s| >= MSG_LEN * n
    ensures Cut(s[..MSG_LEN * n], n) == Cut(s, n)
  {
    hide Cut;
    forall i | 0 <= i < n ensures Cut(s[..MSG_LEN * n], n)[i] == Cut(s, n)[i] {
      CutPrefixAt(s, n, i);
    }
  }

  /** `_atc_read_response`, on a stream that holds all of a response: it takes exactly that
      response and leaves what follows it.  Behind an unknown header nothing is read, and
      only the kind has been changed. */
  method AtcReadResponse(input: Pipe, was: Response) returns (r: int, kind: int, res: Response)
    requires !ReadResponse(input.bytes).Incomplete?
    modifies input
    ensures |old(input.bytes)| >= HEADER_LEN
    ensures var before, header := ReadResponse(old(input.bytes)), old(input.bytes)[..HEADER_LEN];
      && kind == HeaderKind(header)
      && (before.Parsed? ==>
            before == Parsed(res, input.bytes) && r == if res.Ack? then 0 else HeaderPayload(header))
      && (before.Unknown? ==> r == -1 && res == was && input.bytes == old(input.bytes)[HEADER_LEN..])
  {
    ghost var s := input.bytes;
    var header := new byte[HEADER_LEN];
    input.Recv(header);
    if KnownKind(HeaderKind(s[..HEADER_LEN])) { ReadBody(s); }
    hide ReadResponse, Cut, HeaderKind, HeaderPayload, WirePlane, WireAirport;
    var h, payload;
    h, kind, payload := AtcHeaderToRes(header);
    if h == -1 {
      return -1, kind, was;
    }
    if kind == RES_ACK {
      return 0, kind, Ack(payload);
    } else if kind == RES_PLANES {
      var planes;
      r, planes := AtcReadPlanes(input, payload);
      res := PlaneList(planes);
    } else {
      var airports;
      r, airports := AtcReadAirports(input, payload);
      res := AirportList(airports);
    }
  }
}
