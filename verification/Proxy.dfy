/**
 The client's proxies (`src/cli/cli.c`): each call becomes a request, and the response is
 turned back into a return value and the contents of the caller's buffer.
 */
module Proxy {
  import opened Words
  import opened Aircraft
  import opened Flight
  import opened Fleet
  import opened PlaneStore
  import opened Serialize
  import opened Exchange
  import opened Proto
  import opened Session
  import opened Backend

  predicate KnownCommand(cmd: int) {
    SPEED_UP <= cmd <= TURN_LEFT
  }

  function KindOf(cmd: int): (kind: int)
    requires KnownCommand(cmd)
    ensures CarriesPlane(kind) && CommandOf(kind) == cmd
  {
    if cmd == SPEED_UP then REQ_SPEED_UP
    else if cmd == SPEED_DOWN then REQ_SPEED_DOWN
    else if cmd == CLIMB then REQ_ASCEND
    else if cmd == DESCEND then REQ_DESCEND
    else if cmd == TURN_RIGHT then REQ_TURN_RIGHT
    else REQ_TURN_LEFT
  }

  /** An unknown command is refused without asking the server. */
  predicate Forwarded(call: Call) {
    call.Set? ==> KnownCommand(call.cmd)
  }

  predicate Holds(call: Call) {
    call.Set? ==> Fits(call.plane)
  }

  /** Requests without a plane still have the last one in `conn.req`; it is not sent. */
  function RequestOf(call: Call): (q: Request)
    requires Forwarded(call)
    ensures FitsInt(q.kind) && (Holds(call) ==> Fits(q.plane))
  {
    match call
    case Set(cmd, plane) => Request(KindOf(cmd), plane)
    case GetAirplanes => Request(REQ_GET_PLANES, NO_PLANE)
    case GetAirports => Request(REQ_GET_AIRPORTS, NO_PLANE)
    case GetCrashed => Request(REQ_GET_CRASHED, NO_PLANE)
    case GetLanded => Request(REQ_GET_LANDED, NO_PLANE)
    case CreatePlane => Request(REQ_CREATE_PLANE, NO_PLANE)
  }

  /** `res.msg` is a union: the return code and the first airport's `x` are the same bytes. */
  function ReturnCode(res: Response): int
    requires res.Ack? || (res.AirportList? && res.airports != [])
  {
    if res.Ack? then res.code else res.airports[0].x
  }

  /** Responses of the kind the call is prepared for. */
  predicate Suits(call: Call, res: Response) {
    match call
    case GetAirplanes => (res.Ack? && res.code == -1) || res.PlaneList?
    case GetAirports => (res.Ack? && res.code == -1) || (res.AirportList? && res.airports != [])
    case CreatePlane => true
    case _ => res.Ack?
  }

  function Interpret(call: Call, res: Response): Result
    requires Suits(call, res)
  {
    match call
    case GetAirplanes => if res.Ack? then Planes(res.code, []) else Planes(|res.planes|, res.planes)
    case GetAirports => if ReturnCode(res) == -1 then Airfields(-1, []) else Airfields(|res.airports|, res.airports)
    case CreatePlane => Nothing
    case Set(_, plane) => Steered(ReturnCode(res), plane)
    case _ => Code(ReturnCode(res))
  }

  // ------------------------------------------------------------- one call

  function TruncatedAll(planes: seq<Plane>): (r: seq<Plane>)
    ensures |r| == |planes| && forall i :: 0 <= i < |r| ==> r[i] == Truncated(planes[i])
  {
    seq(|planes|, i requires 0 <= i < |planes| => Truncated(planes[i]))
  }

  /** The proxied call answers the same: `set` agrees on failure, planes come with their time
      cut to 32 bits, and everything else is equal.  The plane that `set` is given is a
      matter of its own, because the proxy sends a copy and leaves the caller's as it is. */
  predicate Agrees(call: Call, direct: Result, proxied: Result) {
    match call
    case Set(_, _) =>
      direct.Steered? && proxied.Steered? && (proxied.r == -1 <==> direct.r == -1) && proxied.r in {-1, 0}
    case GetAirplanes => direct.Planes? && proxied == Planes(direct.r, TruncatedAll(direct.buff))
    case _ => proxied == direct
  }

  /** When a proxy answers like the call: the command is one of the six or the plane is not
      under ground, and opening the table does not fail in a scan. */
  predicate Transparent(call: Call, env: Env) {
    && (call.Set? ==> KnownCommand(call.cmd) || call.plane.z >= 0)
    && (call.GetAirplanes? ==> !env.fails)
  }

  lemma HandlerSuits(call: Call, g: Game, env: Env)
    requires Forwarded(call)
    ensures var (o, h) := Handle(Received(RequestOf(call)), g, env);
      && o.Answer? && Suits(call, Delivered(o.res)) && (call.GetAirports? ==> o.res == AirportList(Flight.Airports()))
  {
    hide SetCommand, Returned, ScanTable, CountStatus, Put, NewPlane;
  }

  /** The whole way of a call: encode, decode, handle, encode, decode, interpret. */
  function Proxied(call: Call, g: Game, env: Env, tail: Tail): (Result, Game)
    requires Holds(call) && InRange(g, env.now)
  {
    if !Forwarded(call) then (Steered(-1, call.plane), g)
    else
      RequestRoundTrip(RequestOf(call));
      HandlerSuits(call, g, env);
      var q := FrameRequest(RequestFrame(RequestOf(call)));
      var (o, h) := Handle(q, g, env);
      AnswerFits(q, g, env);
      ResponseRoundTrip(Reported(o), tail);
      (Interpret(call, DecodeChunks(Chunks(Reported(o), tail))), h)
  }

  lemma StampHidesTime(table: seq<Plane>, cmd: int, plane: Plane, now: int, inst: Instants)
    ensures SetCommand(table, cmd, Truncated(plane), now, inst) == SetCommand(table, cmd, plane, now, inst)
  {
    assert Truncated(plane).(time := now) == plane.(time := now);
    hide Below, Put, BringDown, Advance, Steer;
  }

  /** A forwarded call has the effect of the direct call on the game. */
  lemma HandlerActs(call: Call, g: Game, env: Env)
    requires Forwarded(call)
    ensures var (o, h) := Handle(Received(RequestOf(call)), g, env); var (d, k) := Direct(call, g, env);
      && h == k
      && Suits(call, Delivered(Reported(o)))
      && (Agrees(call, d, Interpret(call, Delivered(Reported(o)))) <==> Transparent(call, env))
  {
    HandlerSuits(call, g, env);
    if call.Set? {
      StampHidesTime(g.table, call.cmd, call.plane, env.now, env.inst);
    }
    hide SetCommand, Returned, ScanTable, CountStatus, Put, NewPlane;
  }

  /** The caller's plane after a proxied `set` and after a direct one: the same exactly when
      the direct one has nothing to write into it. */
  lemma CopiesAgree(call: Call, g: Game, env: Env)
    requires call.Set? && Holds(call)
    ensures Direct(call, g, env).0.Steered?
    ensures call.plane == Direct(call, g, env).0.plane <==> Unchanged(call.cmd, call.plane, env.now, env.inst)
  {
    SetChangesItsArgument(call.cmd, call.plane, env.now, env.inst);
    hide SetPlane, SetCommand, Unchanged;
  }

  /** The simplest difference: a plane sped up directly is faster in the caller's hands, one
      sped up through the proxy is not, although both calls succeed. */
  lemma CallersPlaneDiffers(plane: Plane, g: Game, env: Env, tail: Tail)
    requires Fits(plane) && ValidPlane(plane) && plane.status == FLYING && plane.speed < 280
    requires InRange(g, env.now)
    ensures var call := Set(SPEED_UP, plane);
      && Direct(call, g, env).0 == Steered(PLANE_SIZE, plane.(speed := plane.speed + 14, time := env.now))
      && Proxied(call, g, env, tail).0 == Steered(0, plane)
  {
    hide SetCommand, Below, Advance, BringDown, Proxied, InRange, Put, Unchanged;
    var call := Set(SPEED_UP, plane);
    ProxyIsFaithful(call, g, env, tail);
    SetReturns(g.table, SPEED_UP, plane, env.now, env.inst);
    AdvanceNow(plane.(time := env.now));
    LeftAlone(call, g, env, tail);
  }

  /** The proxy never writes into its argument. */
  lemma LeftAlone(call: Call, g: Game, env: Env, tail: Tail)
    requires Holds(call) && InRange(g, env.now) && call.Set?
    ensures Proxied(call, g, env, tail).0.Steered? && Proxied(call, g, env, tail).0.plane == call.plane
  {
    hide FrameRequest, RequestFrame, Handle, DecodeChunks, Chunks, InRange;
  }

  /** A scan that fails is an empty sky through the proxy. */
  lemma FailedScanLooksEmpty(g: Game, env: Env, tail: Tail)
    requires InRange(g, env.now) && env.fails
    ensures Direct(GetAirplanes, g, env) == (Planes(-1, []), g.(crashed := -1, landed := -1))
    ensures Proxied(GetAirplanes, g, env, tail) == (Planes(0, []), g.(crashed := -1, landed := -1))
  {
    hide FrameRequest, RequestFrame, DecodeChunks, Chunks, Returned, ScanTable, InRange;
    var q := RequestOf(GetAirplanes);
    RequestRoundTrip(q);
    AnswerFits(Received(q), g, env);
    ResponseRoundTrip(Reported(Handle(Received(q), g, env).0), tail);
  }

  /** The airports as the client gets them. */
  lemma AirportsOverTheWire(g: Game, env: Env, tail: Tail)
    requires InRange(g, env.now)
    ensures Proxied(GetAirports, g, env, tail)
         == (Airfields(2, [Airport(1000, 1000, [0, 0, 0]), Airport(2000, 2000, [0, 0, 0])]), g)
  {
    ProxyIsFaithful(GetAirports, g, env, tail);
    AirportsOfTheGame(g, env);
    hide Proxied, InRange;
  }

  /** A proxied call answers like the call it replaces exactly for transparent calls, and for
      these the game is left in the same state; what it leaves of the caller's plane is the
      same exactly when the direct call would not have changed it. */
  lemma ProxyIsFaithful(call: Call, g: Game, env: Env, tail: Tail)
    requires Holds(call) && InRange(g, env.now)
    ensures var (p, h) := Proxied(call, g, env, tail); var (d, k) := Direct(call, g, env);
      && (Agrees(call, d, p) <==> Transparent(call, env))
      && (Forwarded(call) || Transparent(call, env) ==> h == k)
      && (call.Set? ==>
            && d.Steered? && p.Steered?
            && (p.plane == d.plane <==> Unchanged(call.cmd, call.plane, env.now, env.inst)))
  {
    hide FrameRequest, RequestFrame, Handle, DecodeChunks, Chunks, Delivered, Put, Returned, ScanTable, Unchanged;
    if call.Set? {
      CopiesAgree(call, g, env);
      LeftAlone(call, g, env, tail);
    }
    if Forwarded(call) {
      HandlerActs(call, g, env);
      RequestRoundTrip(RequestOf(call));
      var o := Handle(Received(RequestOf(call)), g, env).0;
      AnswerFits(Received(RequestOf(call)), g, env);
      ResponseRoundTrip(Reported(o), tail);
    } else {
      UnknownCommand(call.cmd, call.plane, g.table, env);
    }
  }

  lemma UnknownCommand(cmd: int, plane: Plane, table: seq<Plane>, env: Env)
    requires !KnownCommand(cmd)
    ensures var (r, after) := SetCommand(table, cmd, plane, env.now, env.inst);
      if plane.z >= 0 then (r, after) == (-1, table) else r == 0
  {
    AdvanceNow(plane.(time := env.now));
    hide Below, Advance, Put, BringDown;
  }

  /** Plane lists are equal field by field exactly when every time fits 32 bits. */
  lemma TimesSurvive(planes: seq<Plane>)
    ensures TruncatedAll(planes) == planes <==> forall i :: 0 <= i < |planes| ==> 0 <= planes[i].time < TWO32
  {
    forall i | 0 <= i < |planes|
      ensures Truncated(planes[i]) == planes[i] <==> 0 <= planes[i].time < TWO32
    {
      assert Truncated(planes[i]).time == Unsigned(planes[i].time);
    }
    if TruncatedAll(planes) == planes {
      assert forall i :: 0 <= i < |planes| ==> planes[i] == Truncated(planes[i]);
    }
  }

  // ------------------------------------------------------------- a whole session

  /** The requests of a session: one for each call, and `atc_leave` at the end. */
  function Questions(calls: seq<Call>): (qs: seq<Request>)
    requires forall k :: 0 <= k < |calls| ==> Forwarded(calls[k])
    ensures |qs| == |calls| + 1 && qs[|calls|] == Request(REQ_LEAVE, NO_PLANE)
    ensures forall k :: 0 <= k < |calls| ==> qs[k] == RequestOf(calls[k])
  {
    seq(|calls|, k requires 0 <= k < |calls| && Forwarded(calls[k]) => RequestOf(calls[k]))
    + [Request(REQ_LEAVE, NO_PLANE)]
  }

  /** Calls that reach the server, with planes and a game whose numbers stay in range. */
  ghost predicate Playable(calls: seq<Call>, g: Game, envs: nat -> Env) {
    && (forall k :: 0 <= k < |calls| ==> Forwarded(calls[k]) && Holds(calls[k]))
    && (forall k :: 0 <= k < |calls| ==> InRange(DirectAll(calls[..k], g, envs), envs(k).now))
  }

  /** The game behind the server goes the way of the game called directly. */
  lemma {:induction false} SameGame(calls: seq<Call>, g: Game, envs: nat -> Env, k: nat)
    requires (forall i :: 0 <= i < |calls| ==> Forwarded(calls[i])) && k <= |calls|
    ensures Served(ReceivedAll(Questions(calls))[..k], g, envs) == DirectAll(calls[..k], g, envs)
  {
    hide Handle, Direct, RequestOf, Received, Questions, ReceivedAll, Transparent, Agrees, Interpret;
    var qs := ReceivedAll(Questions(calls));
    if k > 0 {
      SameGame(calls, g, envs, k - 1);
      assert qs[..k][..k - 1] == qs[..k - 1] && calls[..k][..k - 1] == calls[..k - 1];
      assert qs[k - 1] == Received(RequestOf(calls[k - 1]));
      HandlerActs(calls[k - 1], DirectAll(calls[..k - 1], g, envs), envs(k - 1));
    }
  }

  lemma AnswerIs(calls: seq<Call>, g: Game, envs: nat -> Env, k: nat)
    requires (forall i :: 0 <= i < |calls| ==> Forwarded(calls[i])) && k <= |calls|
    ensures AnswerTo(ServiceOf(g, envs), Questions(calls), k)
         == Handle(Received(Questions(calls)[k]), DirectAll(calls[..k], g, envs), envs(k)).0
  {
    hide Handle, Direct, RequestOf, Received, Questions, Served, DirectAll;
    SameGame(calls, g, envs, k);
    var qs := ReceivedAll(Questions(calls));
    assert ReceivedAll(Questions(calls)[..k + 1]) == qs[..k + 1];
    assert qs[..k + 1][..k] == qs[..k];
  }

  lemma SessionIsAnswerable(calls: seq<Call>, g: Game, envs: nat -> Env)
    requires Playable(calls, g, envs)
    ensures Answerable(ServiceOf(g, envs), Questions(calls))
  {
    hide Handle, RequestOf, Received, AnswerTo, InRange, DirectAll, ServiceOf, Fits, Speakable;
    var qs := Questions(calls);
    forall k | 0 <= k < |qs|
      ensures Askable(qs[k]) && Speakable(AnswerTo(ServiceOf(g, envs), qs, k))
      ensures AnswerTo(ServiceOf(g, envs), qs, k).HangUp? ==> k == |qs| - 1
    {
      AnswerIs(calls, g, envs, k);
      if k < |calls| {
        AnswerFits(Received(qs[k]), DirectAll(calls[..k], g, envs), envs(k));
        HandlerSuits(calls[k], DirectAll(calls[..k], g, envs), envs(k));
      } else {
        NoPlaneFits();
        LeavingIsAnswered(Received(qs[k]), DirectAll(calls, g, envs), envs(k));
        assert calls[..k] == calls;
      }
    }
  }

  lemma LeavingIsAnswered(q: Request, g: Game, env: Env)
    requires q == Received(Request(REQ_LEAVE, NO_PLANE))
    ensures Handle(q, g, env).0.HangUp? && Handle(q, g, env).1 == g && Speakable(Handle(q, g, env).0)
  {
    hide Direct;
  }

  lemma NoPlaneFits()
    ensures Fits(NO_PLANE)
  {
  }

  lemma AllForwarded(calls: seq<Call>, g: Game, envs: nat -> Env)
    requires Playable(calls, g, envs)
    ensures forall k :: 0 <= k < |calls| ==> Forwarded(calls[k]) && Holds(calls[k])
  {
    hide Forwarded, Holds, InRange, DirectAll;
  }

  ghost function SessionPlan(calls: seq<Call>, g: Game, envs: nat -> Env, tails: Tails): (plan: seq<Turn>)
    requires Playable(calls, g, envs)
    ensures Answerable(ServiceOf(g, envs), Questions(calls))
    ensures plan == Plan(ServiceOf(g, envs), tails, Questions(calls))
  {
    SessionIsAnswerable(calls, g, envs);
    Plan(ServiceOf(g, envs), tails, Questions(calls))
  }

  /** What the k-th call gives when all of them are made directly. */
  function DirectResult(calls: seq<Call>, g: Game, envs: nat -> Env, k: nat): Result
    requires k < |calls|
  {
    Direct(calls[k], DirectAll(calls[..k], g, envs), envs(k)).0
  }

  /** What the client makes of the bytes it got agrees with the direct result, exactly for
      transparent calls. */
  ghost predicate AnsweredAlike(call: Call, env: Env, direct: Result, chunks: seq<seq<byte>>) {
    && ReplyShape(chunks)
    && Suits(call, DecodeChunks(chunks))
    && var proxied := Interpret(call, DecodeChunks(chunks));
       && (Agrees(call, direct, proxied) <==> Transparent(call, env))
       && (call.Set? ==>
             && direct.Steered? && proxied.Steered?
             && (proxied.plane == direct.plane <==> Unchanged(call.cmd, call.plane, env.now, env.inst)))
  }

  lemma AlikeOnceDelivered(call: Call, g: Game, env: Env, chunks: seq<seq<byte>>)
    requires Forwarded(call) && Holds(call) && ReplyShape(chunks)
    requires DecodeChunks(chunks) == Delivered(Reported(Handle(Received(RequestOf(call)), g, env).0))
    ensures AnsweredAlike(call, env, Direct(call, g, env).0, chunks)
  {
    hide Handle, Direct, ReplyShape, Received, RequestOf, Transparent, DecodeChunks, Delivered, Fits, Unchanged;
    HandlerActs(call, g, env);
    if call.Set? {
      CopiesAgree(call, g, env);
    }
  }

  /** The game behind a server that has received these frames. */
  function GameBehind(received: seq<seq<byte>>, g: Game, envs: nat -> Env): Game
    requires Framed(received)
  {
    Served(Unframed(received), g, envs)
  }

  function AtMost(n: nat, most: nat): (m: nat)
    ensures m <= n && m <= most
  {
    if n <= most then n else most
  }

  /** It is the game after as many direct calls; leaving changes nothing. */
  lemma GameBehindIsDirect(calls: seq<Call>, g: Game, envs: nat -> Env, received: seq<seq<byte>>)
    requires forall i :: 0 <= i < |calls| ==> Forwarded(calls[i]) && Holds(calls[i])
    requires QuestionsCanBeAsked(calls) && received <= Frames(Questions(calls))
    ensures Framed(received)
    ensures GameBehind(received, g, envs) == DirectAll(calls[..AtMost(|received|, |calls|)], g, envs)
  {
    hide Handle, Direct, DirectAll, RequestOf, Received, RequestFrame, FrameRequest, Fits;
    var qs, m := Questions(calls), |received|;
    UnframedFrames(qs);
    assert Unframed(received) == ReceivedAll(qs)[..m];
    SameGame(calls, g, envs, AtMost(m, |calls|));
    if m > |calls| {
      var last := ReceivedAll(qs)[..m];
      assert last[..|calls|] == ReceivedAll(qs)[..|calls|];
      LeavingIsAnswered(last[|calls|], Served(last[..|calls|], g, envs), envs(|calls|));
    }
  }

  predicate QuestionsCanBeAsked(calls: seq<Call>)
    requires forall i :: 0 <= i < |calls| ==> Forwarded(calls[i])
  {
    forall k :: 0 <= k < |Questions(calls)| ==> Askable(Questions(calls)[k])
  }

  /** The frames of the whole session. */
  ghost function SessionFrames(calls: seq<Call>): seq<seq<byte>> {
    if forall k :: 0 <= k < |calls| ==> Forwarded(calls[k]) && Holds(calls[k]) then
      QuestionsFit(calls);
      Frames(Questions(calls))
    else []
  }

  lemma QuestionsFit(calls: seq<Call>)
    requires forall k :: 0 <= k < |calls| ==> Forwarded(calls[k]) && Holds(calls[k])
    ensures forall k :: 0 <= k < |Questions(calls)| ==> Askable(Questions(calls)[k])
  {
    hide Fits;
    NoPlaneFits();
  }

  /** The answer to leaving. */
  ghost predicate Refusal(chunks: seq<seq<byte>>) {
    ReplyShape(chunks) && DecodeChunks(chunks) == Ack(-1)
  }

  /** Everything the client has heard by now. */
  ghost predicate HeardAlike(calls: seq<Call>, g: Game, envs: nat -> Env, log: seq<seq<seq<byte>>>) {
    && |log| <= |calls| + 1
    && (forall k :: 0 <= k < |log| && k < |calls| ==>
          AnsweredAlike(calls[k], envs(k), DirectResult(calls, g, envs, k), log[k]))
    && (|log| == |calls| + 1 ==> Refusal(log[|calls|]))
  }

  /** The main result.  A client program whose calls go through the proxies, the codec, the
      framing, two 32-byte rings and the handler, in any interleaving of single steps of the
      two processes: what it gets out of every finished call agrees with what the same calls
      give on a game in its own process, exactly for calls that are transparent; the game
      behind the server is that game after the calls received so far; leaving is answered with
      an acknowledgement of -1; and when neither side can move, all calls have been finished,
      the server has hung up and the rings are empty. */
  lemma GameOverTheWire(calls: seq<Call>, g: Game, envs: nat -> Env, tails: Tails, run: seq<System>)
    requires Playable(calls, g, envs)
    requires Exchange.IsRun(SessionPlan(calls, g, envs, tails), OnBytes(ServiceOf(g, envs), tails), run)
    ensures var y := run[|run| - 1];
      && |y.c.log| == y.c.turn && HeardAlike(calls, g, envs, y.c.log)
      && Framed(y.s.received)
      && GameBehind(y.s.received, g, envs) == DirectAll(calls[..AtMost(|y.s.received|, |calls|)], g, envs)
      && (Halted(SessionFrames(calls), OnBytes(ServiceOf(g, envs), tails), y) ==>
            && y.c.turn == |calls| + 1 && y.s.pc == SClosed
            && AtRest(y.up, y.c.tx, y.s.rx) && AtRest(y.down, y.s.tx, y.c.rx))
  {
    hide Handle, Direct, DirectAll, ReplyShape, Received, RequestOf, ServiceOf, OnBytes, AnswerTo, Holds, AnsweredAlike,
         DecodeChunks, Delivered, Playable, Plan, Answerable, Frames, AtRest, Framed, GameBehind, QuestionsCanBeAsked,
         Halted;
    var y := run[|run| - 1];
    AllForwarded(calls, g, envs);
    SessionIsAnswerable(calls, g, envs);
    SessionIsFaithful(ServiceOf(g, envs), tails, Questions(calls), run);
    OnlyLeavingHangsUp(calls, g, envs);
    RefusalIsDelivered();
    GameBehindIsDirect(calls, g, envs, y.s.received);
    forall k | 0 <= k < y.c.turn && k < |calls|
      ensures AnsweredAlike(calls[k], envs(k), DirectResult(calls, g, envs, k), y.c.log[k])
    {
      AnswerIs(calls, g, envs, k);
      AlikeOnceDelivered(calls[k], DirectAll(calls[..k], g, envs), envs(k), y.c.log[k]);
    }
  }

  lemma RefusalIsDelivered()
    ensures Delivered(Reported(HangUp)) == Ack(-1)
  {
  }

  lemma OnlyLeavingHangsUp(calls: seq<Call>, g: Game, envs: nat -> Env)
    requires Playable(calls, g, envs) && forall k :: 0 <= k < |calls| ==> Forwarded(calls[k])
    ensures QuestionsCanBeAsked(calls)
    ensures AnswerTo(ServiceOf(g, envs), Questions(calls), |calls|).HangUp?
  {
    SessionIsAnswerable(calls, g, envs);
    hide Handle, DirectAll, RequestOf, Received, ServiceOf, AnswerTo, Playable, Fits;
    AnswerIs(calls, g, envs, |calls|);
    LeavingIsAnswered(Received(Questions(calls)[|calls|]), DirectAll(calls[..|calls|], g, envs), envs(|calls|));
  }
}
