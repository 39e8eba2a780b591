/**
 The server child of `src/srv/main.c` over one connection: `reply_handler`, `atc_reply`
 and the loop of `listen_child_channels`, proved against the service of `Backend`.
 */
module Server {
  import opened Words
  import opened Aircraft
  import opened Flight
  import opened PlaneStore
  import opened Fleet
  import opened Simulation
  import opened Serialize
  import Exchange
  import opened Proto
  import opened Session
  import opened Backend

  ghost function GameOf(atcd: Atcd): Game
    reads atcd
  {
    Game(atcd.table, atcd.planesCount, atcd.crashedCount, atcd.landedCount)
  }

  /** What a request may hold: a plane under a proper id, whose elevation does not overflow. */
  predicate Acceptable(q: Request) {
    && Fits(q.plane)
    && (CarriesPlane(q.kind) ==> GoodId(q.plane.id) && Tilts(CommandOf(q.kind), q.plane))
  }

  predicate Fair(env: Env) {
    FitsLong(env.now)
  }

  /** `struct atc_conn`, with the two directions of its transport. */
  class Connection {
    const atcd: Atcd
    const input: Pipe
    const output: Pipe
    var req: Request
    var res: Response

    constructor (atcd: Atcd, input: Pipe, output: Pipe)
      ensures this.atcd == atcd && this.input == input && this.output == output
    {
      this.atcd, this.input, this.output := atcd, input, output;
      req, res := Request(0, NO_PLANE), Ack(0);
    }

    /** `reply_handler`. */
    method ReplyHandler(env: Env) returns (r: int)
      requires atcd.Valid() && Acceptable(req) && Fair(env)
      modifies this`res, atcd, atcd.file
      ensures atcd.Valid()
      ensures Handle(req, old(GameOf(atcd)), env) == (if r == -1 then HangUp else Answer(res), GameOf(atcd))
    {
      hide Returned, ScanTable, CountStatus, SetCommand, Put, NewPlane, Fits, GoodId, Atcd.Valid;
      res := Ack(0);
      if CarriesPlane(req.kind) {
        var written, after := atcd.Set(CommandOf(req.kind), req.plane, env.now, env.inst);
        if written == -1 {
          res := Ack(-1);
        }
      } else if req.kind == REQ_GET_PLANES {
        var buffer := new Plane[MAX_PLANES];
        var aux := atcd.GetAirplanes(buffer, env.now, env.inst, !env.fails);
        res := PlaneList(if aux == -1 then [] else buffer[..aux]);
      } else if req.kind == REQ_GET_AIRPORTS {
        res := AirportList(Flight.Airports());
      } else if req.kind == REQ_GET_LANDED {
        res := Ack(atcd.landedCount);
      } else if req.kind == REQ_GET_CRASHED {
        res := Ack(atcd.crashedCount);
      } else if req.kind == REQ_CREATE_PLANE {
        atcd.CreatePlane(env.draws, env.now);
      } else if req.kind == REQ_LEAVE {
        return -1;
      }
      r := 0;
    }

    /** `atc_reply`. */
    method AtcReply(env: Env) returns (r: int, ghost tail: Tail)
      requires atcd.Valid() && Fair(env) && input != output && |input.bytes| >= MSG_LEN
      requires Acceptable(FrameRequest(input.bytes[..MSG_LEN]))
      requires InRange(GameOf(atcd), env.now)
      modifies this, atcd, atcd.file, input, output
      ensures atcd.Valid() && input.bytes == old(input.bytes)[MSG_LEN..]
      ensures var (o, h) := Handle(FrameRequest(old(input.bytes)[..MSG_LEN]), old(GameOf(atcd)), env);
        && GameOf(atcd) == h && Speakable(o)
        && output.bytes == old(output.bytes) + Exchange.Concat(ReplyOf(o, tail).chunks)
        && (r == -1 <==> o.HangUp?)
      ensures r == -1 ==> output.bytes == old(output.bytes) + HeaderBytes('a' as int, -1)
      ensures r != -1 ==> r == 64
    {
      hide Handle, FrameRequest, Acceptable, InRange, Sendable, Chunks, Exchange.Concat, Atcd.Valid, Fair;
      var buffer := new byte[MSG_LEN];
      input.Recv(buffer);
      var next;
      next, req := AtcWireToReq(buffer);
      AnswerFits(req, GameOf(atcd), env);
      r := ReplyHandler(env);
      if r == -1 {
        res := Ack(-1);
      }
      var sent, junk := AtcWriteResponse(res, output);
      tail := junk;
      RefusalBytes(tail);
      if r != -1 {
        r := MSG_LEN;
      }
    }

    /** `listen_child_channels`, for a client that leaves in the end: every request is
        answered in order, by the handler, on the game as the earlier ones left it. */
    method ListenChildChannels(envs: nat -> Env, ghost frames: seq<seq<byte>>)
      returns (ghost replies: seq<seq<byte>>, ghost tails: seq<Tail>)
      requires atcd.Valid() && input != output
      requires LeavesLast(frames, GameOf(atcd), envs) && input.bytes == Exchange.Concat(frames)
      modifies this, atcd, atcd.file, input, output
      ensures atcd.Valid() && input.bytes == []
      ensures GameOf(atcd) == Served(Unframed(frames), old(GameOf(atcd)), envs)
      ensures |replies| == |tails| == |frames| && output.bytes == old(output.bytes) + Exchange.Concat(replies)
      ensures forall k :: 0 <= k < |frames| ==> SaidAt(frames, old(GameOf(atcd)), envs, k, tails[k], replies[k])
    {
      hide LeavesLast, Unframed, Served, Exchange.Concat, SaidAt, ReplyOf, Handle, FrameRequest, InRange, Acceptable,
           Fair, Speakable, Atcd.Valid;
      ghost var was, said := GameOf(atcd), output.bytes;
      var k := 0;
      StartListening(frames, was, envs);
      replies, tails := [], [];
      var r := 0;
      while r != -1
        invariant atcd.Valid() && k <= |frames| && |replies| == |tails| == k
        invariant (r == -1) == (k == |frames|)
        invariant input.bytes == Exchange.Concat(frames[k..])
        invariant GameOf(atcd) == Served(Unframed(frames[..k]), was, envs)
        invariant output.bytes == said + Exchange.Concat(replies)
        invariant forall i :: 0 <= i < k ==> SaidAt(frames, was, envs, i, tails[i], replies[i])
        decreases |frames| - k
      {
        NextRequest(frames, was, envs, k);
        NextAnswer(frames, was, envs, k);
        ghost var tail: Tail;
        r, tail := AtcReply(envs(k));
        ghost var o := Handle(FrameRequest(frames[k]), Served(Unframed(frames[..k]), was, envs), envs(k)).0;
        ghost var reply := Exchange.Concat(ReplyOf(o, tail).chunks);
        SaidNext(frames, was, envs, k, tail, o);
        Appended(said, replies, reply);
        replies, tails := replies + [reply], tails + [tail];
        k := k + 1;
      }
      StopListening(frames);
    }
  }

  lemma RefusalBytes(tail: Tail)
    ensures Sendable(Ack(-1)) && Exchange.Concat(Chunks(Ack(-1), tail)) == HeaderBytes('a' as int, -1)
  {
    hide HeaderBytes;
    var chunks := Chunks(Ack(-1), tail);
    assert chunks == [HeaderBytes(RES_ACK, -1)];
    assert chunks[..0] == [];
  }

  // ------------------------------------------------------------- what is asked and said

  /** Whole frames, acceptable requests, numbers in range, and leaving comes last. */
  ghost predicate LeavesLast(frames: seq<seq<byte>>, g: Game, envs: nat -> Env) {
    && Framed(frames) && |frames| > 0
    && forall k :: 0 <= k < |frames| ==>
         && Acceptable(FrameRequest(frames[k])) && Fair(envs(k))
         && InRange(Served(Unframed(frames[..k]), g, envs), envs(k).now)
         && (FrameRequest(frames[k]).kind == REQ_LEAVE <==> k == |frames| - 1)
  }

  /** The bytes of the service's answer to the k-th request. */
  ghost predicate SaidAt(frames: seq<seq<byte>>, g: Game, envs: nat -> Env, k: nat, tail: Tail, reply: seq<byte>) {
    && k < |frames| && Framed(frames)
    && var o := ServiceOf(g, envs)(Unframed(frames[..k + 1]));
       Speakable(o) && reply == Exchange.Concat(ReplyOf(o, tail).chunks)
  }

  lemma StartListening(frames: seq<seq<byte>>, g: Game, envs: nat -> Env)
    requires LeavesLast(frames, g, envs)
    ensures |frames| > 0 && frames[0..] == frames && Framed(frames)
    ensures Framed(frames[..0]) && Served(Unframed(frames[..0]), g, envs) == g
    ensures Exchange.Concat([]) == []
  {
  }

  lemma StopListening(frames: seq<seq<byte>>)
    ensures frames[..|frames|] == frames && Exchange.Concat(frames[|frames|..]) == []
  {
  }

  lemma NextRequest(frames: seq<seq<byte>>, g: Game, envs: nat -> Env, k: nat)
    requires LeavesLast(frames, g, envs) && k < |frames|
    ensures var rest := Exchange.Concat(frames[k..]);
      |rest| >= MSG_LEN && rest[..MSG_LEN] == frames[k] && rest[MSG_LEN..] == Exchange.Concat(frames[k + 1..])
    ensures |frames[k]| == MSG_LEN && Acceptable(FrameRequest(frames[k])) && Fair(envs(k))
    ensures Framed(frames[..k]) && Framed(frames[..k + 1])
    ensures InRange(Served(Unframed(frames[..k]), g, envs), envs(k).now)
  {
    hide Acceptable, FrameRequest, Served, Unframed, InRange, Fair, Exchange.Concat;
    ConcatFirst(frames[k..]);
    assert frames[k..][1..] == frames[k + 1..];
  }

  lemma HangsUpToLeave(q: Request, g: Game, env: Env)
    ensures Handle(q, g, env).0.HangUp? <==> q.kind == REQ_LEAVE
  {
    hide Direct;
  }

  lemma NextAnswer(frames: seq<seq<byte>>, g: Game, envs: nat -> Env, k: nat)
    requires LeavesLast(frames, g, envs) && k < |frames|
    requires Framed(frames[..k]) && Framed(frames[..k + 1]) && |frames[k]| == MSG_LEN
    ensures var (o, h) := Handle(FrameRequest(frames[k]), Served(Unframed(frames[..k]), g, envs), envs(k));
      && Served(Unframed(frames[..k + 1]), g, envs) == h
      && ServiceOf(g, envs)(Unframed(frames[..k + 1])) == o
      && (o.HangUp? <==> k == |frames| - 1)
  {
    hide Acceptable, FrameRequest, InRange, Fair, Handle;
    var qs := Unframed(frames[..k + 1]);
    assert qs[..k] == Unframed(frames[..k]);
    HangsUpToLeave(FrameRequest(frames[k]), Served(Unframed(frames[..k]), g, envs), envs(k));
  }

  lemma SaidNext(frames: seq<seq<byte>>, g: Game, envs: nat -> Env, k: nat, tail: Tail, o: Outcome)
    requires k < |frames| && Framed(frames) && Framed(frames[..k + 1])
    requires ServiceOf(g, envs)(Unframed(frames[..k + 1])) == o && Speakable(o)
    ensures SaidAt(frames, g, envs, k, tail, Exchange.Concat(ReplyOf(o, tail).chunks))
  {
    hide Exchange.Concat, ReplyOf, ServiceOf, Unframed, Speakable;
  }

  lemma Appended(was: seq<byte>, parts: seq<seq<byte>>, part: seq<byte>)
    ensures was + Exchange.Concat(parts) + part == was + Exchange.Concat(parts + [part])
  {
    assert (parts + [part])[..|parts|] == parts;
  }
}
