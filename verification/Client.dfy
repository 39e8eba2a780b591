/**
 `src/cli/cli.c` as a program: one static connection, whose request and response each
 proxy fills and reads.  `down` holds what the server sends; a call that would wait for it
 returns once it is there.
 */
module Client {
  import opened Words
  import opened Aircraft
  import opened Flight
  import opened Serialize
  import opened Proto
  import opened Session
  import opened Backend
  import opened Proxy

  /** The part of a buffer that a call says it has filled. */
  function FilledPart<T>(buff: seq<T>, count: int): seq<T> {
    if 0 <= count <= |buff| then buff[..count] else []
  }

  class Cli {
    const up: Pipe
    const down: Pipe
    var req: Request
    var kind: int
    var res: Response

    ghost predicate Valid()
      reads this
    {
      up != down && Askable(req)
    }

    constructor (up: Pipe, down: Pipe)
      requires up != down
      ensures Valid() && this.up == up && this.down == down
    {
      this.up, this.down := up, down;
      req, kind, res := Request(REQ_JOIN, NO_PLANE), 0, Ack(0);
    }

    /** The response that is on its way is one the call is prepared for. */
    ghost predicate Expects(call: Call)
      reads this, down
    {
      && Valid() && Forwarded(call) && Holds(call)
      && ReadResponse(down.bytes).Parsed? && Suits(call, ReadResponse(down.bytes).res)
    }

    /** What is on its way has at most `n` entries. */
    ghost predicate RoomFor(n: nat)
      reads down
    {
      ReadResponse(down.bytes).Parsed? ==> FrameTotal(ReadResponse(down.bytes).res) <= n
    }

    /** One request sent, one response taken, and its reading by `Interpret` is `result`. */
    twostate predicate Exchanged(call: Call, result: Result)
      requires old(Expects(call))
      reads this, up, down
    {
      var parsed := ReadResponse(old(down.bytes));
      && Valid()
      && up.bytes == old(up.bytes) + RequestFrame(RequestOf(call))
      && down.bytes == parsed.rest
      && result == Interpret(call, parsed.res)
    }

    /** `atc_request`.  An unknown header changes the kind and nothing else of the response. */
    method AtcRequest() returns (r: int)
      requires Valid() && !ReadResponse(down.bytes).Incomplete?
      modifies this`kind, this`res, up, down
      ensures Valid() && up.bytes == old(up.bytes) + RequestFrame(req)
      ensures |old(down.bytes)| >= HEADER_LEN
      ensures var before, header := ReadResponse(old(down.bytes)), old(down.bytes)[..HEADER_LEN];
        && kind == HeaderKind(header)
        && (before.Parsed? ==>
              && before == Parsed(res, down.bytes) && kind == Kind(res)
              && r == if res.Ack? then 0 else HeaderPayload(header))
        && (before.Unknown? ==>
              && !KnownKind(kind) && r == -1
              && res == old(res) && down.bytes == old(down.bytes)[HEADER_LEN..])
    {
      HeaderIsThere(down.bytes);
      hide ReadResponse, RequestFrame, Fits, HeaderKind, HeaderPayload;
      var buffer := new byte[MSG_LEN];
      var next := AtcReqToWire(req, buffer);
      up.Send(buffer);
      r, kind, res := AtcReadResponse(down, res);
    }

    lemma HeaderIsThere(s: seq<byte>)
      ensures match ReadResponse(s)
        case Incomplete => true
        case Unknown => |s| >= HEADER_LEN && !KnownKind(HeaderKind(s[..HEADER_LEN]))
        case Parsed(wanted, _) => |s| >= HEADER_LEN && HeaderKind(s[..HEADER_LEN]) == Kind(wanted)
    {
      hide HeaderKind, HeaderPayload, Cut, WirePlane, WireAirport;
    }

    /** What is not sent does not matter. */
    lemma OnlyKindIsSent(kind: int)
      requires FitsInt(kind) && !CarriesPlane(kind) && Askable(req) && Askable(Request(kind, NO_PLANE))
      ensures RequestFrame(req.(kind := kind)) == RequestFrame(Request(kind, NO_PLANE))
    {
    }

    lemma NoPlaneIsAskable(kind: int)
      requires FitsInt(kind)
      ensures Askable(Request(kind, NO_PLANE))
    {
    }

    /** The three calls that send a bare request and give back `return_code`. */
    method Ask(question: int)
      requires Valid() && FitsInt(question) && !CarriesPlane(question) && ReadResponse(down.bytes).Parsed?
      modifies this, up, down
      ensures Valid() && Askable(Request(question, NO_PLANE))
      ensures up.bytes == old(up.bytes) + RequestFrame(Request(question, NO_PLANE))
      ensures ReadResponse(old(down.bytes)) == Parsed(res, down.bytes) && kind == Kind(res)
    {
      hide ReadResponse, RequestFrame, Fits;
      NoPlaneIsAskable(question);
      OnlyKindIsSent(question);
      req := req.(kind := question);
      var r := AtcRequest();
    }

    /** `set`. */
    method Set(cmd: int, plane: Plane) returns (r: int)
      requires Valid() && (KnownCommand(cmd) ==> Expects(Call.Set(cmd, plane)))
      modifies this, up, down
      ensures Valid()
      ensures KnownCommand(cmd) ==> Exchanged(Call.Set(cmd, plane), Steered(r, plane))
      ensures !KnownCommand(cmd) ==> r == -1 && up.bytes == old(up.bytes) && down.bytes == old(down.bytes)
    {
      hide ReadResponse, RequestFrame, Fits;
      if cmd == SPEED_UP {
        req := req.(kind := REQ_SPEED_UP);
      } else if cmd == SPEED_DOWN {
        req := req.(kind := REQ_SPEED_DOWN);
      } else if cmd == CLIMB {
        req := req.(kind := REQ_ASCEND);
      } else if cmd == DESCEND {
        req := req.(kind := REQ_DESCEND);
      } else if cmd == TURN_RIGHT {
        req := req.(kind := REQ_TURN_RIGHT);
      } else if cmd == TURN_LEFT {
        req := req.(kind := REQ_TURN_LEFT);
      } else {
        return -1;
      }
      req := req.(plane := plane);
      assert req == RequestOf(Call.Set(cmd, plane));
      var status := AtcRequest();
      r := ReturnCode(res);
    }

    /** `get_airplanes`: copies as many planes as the response announces. */
    method GetAirplanes(buff: array<Plane>) returns (count: int)
      requires Expects(Call.GetAirplanes) && RoomFor(buff.Length)
      modifies this, up, down, buff
      ensures Exchanged(Call.GetAirplanes, Planes(count, FilledPart(buff[..], count)))
    {
      hide ReadResponse, RequestFrame, Fits;
      Ask(REQ_GET_PLANES);
      if kind == RES_ACK {
        return res.code;
      }
      count := |res.planes|;
      var i := 0;
      while i < count
        invariant 0 <= i <= count <= buff.Length && buff[..i] == res.planes[..i]
        modifies buff
      {
        buff[i] := res.planes[i];
        i := i + 1;
      }
    }

    /** `get_airports`. */
    method GetAirports(buff: array<Airport>) returns (count: int)
      requires Expects(Call.GetAirports) && RoomFor(buff.Length)
      modifies this, up, down, buff
      ensures Exchanged(Call.GetAirports, Airfields(count, FilledPart(buff[..], count)))
    {
      hide ReadResponse, RequestFrame, Fits;
      Ask(REQ_GET_AIRPORTS);
      if ReturnCode(res) == -1 {
        return -1;
      }
      count := |res.airports|;
      var i := 0;
      while i < count
        invariant 0 <= i <= count <= buff.Length && buff[..i] == res.airports[..i]
        modifies buff
      {
        buff[i] := res.airports[i];
        i := i + 1;
      }
    }

    /** `get_crashed`. */
    method GetCrashed() returns (r: int)
      requires Expects(Call.GetCrashed)
      modifies this, up, down
      ensures Exchanged(Call.GetCrashed, Code(r))
    {
      hide ReadResponse, RequestFrame, Fits;
      Ask(REQ_GET_CRASHED);
      r := ReturnCode(res);
    }

    /** `get_landed`. */
    method GetLanded() returns (r: int)
      requires Expects(Call.GetLanded)
      modifies this, up, down
      ensures Exchanged(Call.GetLanded, Code(r))
    {
      hide ReadResponse, RequestFrame, Fits;
      Ask(REQ_GET_LANDED);
      r := ReturnCode(res);
    }

    /** `create_plane`. */
    method CreatePlane()
      requires Expects(Call.CreatePlane)
      modifies this, up, down
      ensures Exchanged(Call.CreatePlane, Nothing)
    {
      hide ReadResponse, RequestFrame, Fits;
      Ask(REQ_CREATE_PLANE);
    }
  }
}
