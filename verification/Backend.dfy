/**
 The calls of `atcd.h` as a program makes them, and the request handler of the server
 (`src/srv/main.c`) that makes them on behalf of a client.
 */
module Backend {
  import opened Words
  import opened Aircraft
  import opened Flight
  import opened PlaneStore
  import opened Fleet
  import opened Serialize
  import opened Proto
  import opened Session

  /** Eleven values of `rand()`. */
  type Draws = r: seq<nat> | |r| == 11 witness [0, 0, 0, 0, 0, 0, 0, 0, 0, 0, 0]

  /** What a call meets: the clock, landing instants, random numbers, and whether opening
      the table for a scan fails. */
  datatype Env = Env(now: int, inst: Instants, draws: Draws, fails: bool)

  /** The table and the static counters of `src/atcd/atcd.c`. */
  datatype Game = Game(table: seq<Plane>, planesCount: int, crashed: int, landed: int)

  datatype Call = Set(cmd: int, plane: Plane) | GetAirplanes | GetAirports | GetCrashed | GetLanded | CreatePlane

  /** The return value, and what the caller's memory holds then: the buffer filled, or the
      plane `set` was given a pointer to. */
  datatype Result =
    | Code(r: int)
    | Steered(r: int, plane: Plane)
    | Planes(r: int, buff: seq<Plane>)
    | Airfields(r: int, fields: seq<Airport>)
    | Nothing

  /** A call made in the process that holds the game. */
  function Direct(call: Call, g: Game, env: Env): (Result, Game) {
    match call
    case Set(cmd, plane) =>
      var (r, table) := SetCommand(g.table, cmd, plane, env.now, env.inst);
      (Steered(r, SetPlane(cmd, plane, env.now, env.inst)), g.(table := table))
    case GetAirplanes =>
      if env.fails then (Planes(-1, []), g.(crashed := -1, landed := -1))
      else
        var seen := Returned(g.table, env.now);
        (Planes(|seen|, seen),
         Game(ScanTable(g.table, env.now, env.inst), |seen|,
              CountStatus(g.table, CRASHED), CountStatus(g.table, LANDED)))
    case GetAirports => (Airfields(|Flight.Airports()|, Flight.Airports()), g)
    case GetCrashed => (Code(g.crashed), g)
    case GetLanded => (Code(g.landed), g)
    case CreatePlane =>
      (Nothing, if g.planesCount == MAX_PLANES then g else g.(table := Put(g.table, NewPlane(env.draws, env.now))))
  }

  function DirectAll(calls: seq<Call>, g: Game, envs: nat -> Env): Game {
    if calls == [] then g
    else
      var n := |calls| - 1;
      Direct(calls[n], DirectAll(calls[..n], g, envs), envs(n)).1
  }

  // ------------------------------------------------------------- the handler

  function CommandOf(kind: int): int
    requires CarriesPlane(kind)
  {
    if kind == REQ_SPEED_UP then SPEED_UP
    else if kind == REQ_SPEED_DOWN then SPEED_DOWN
    else if kind == REQ_TURN_LEFT then TURN_LEFT
    else if kind == REQ_TURN_RIGHT then TURN_RIGHT
    else if kind == REQ_ASCEND then CLIMB
    else DESCEND
  }

  /** `reply_handler`. */
  function Handle(q: Request, g: Game, env: Env): (Outcome, Game) {
    if CarriesPlane(q.kind) then
      var (r, h) := Direct(Set(CommandOf(q.kind), q.plane), g, env);
      (Answer(Ack(if r.r == -1 then -1 else 0)), h)
    else if q.kind == REQ_GET_PLANES then
      var (r, h) := Direct(GetAirplanes, g, env);
      (Answer(PlaneList(r.buff)), h)
    else if q.kind == REQ_GET_AIRPORTS then (Answer(AirportList(Flight.Airports())), g)
    else if q.kind == REQ_GET_LANDED then (Answer(Ack(g.landed)), g)
    else if q.kind == REQ_GET_CRASHED then (Answer(Ack(g.crashed)), g)
    else if q.kind == REQ_CREATE_PLANE then (Answer(Ack(0)), Direct(CreatePlane, g, env).1)
    else if q.kind == REQ_LEAVE then (HangUp, g)
    else (Answer(Ack(0)), g)
  }

  // ------------------------------------------------------------- the handler in numbers

  /** The two airports of the game. */
  lemma AirportsOfTheGame(g: Game, env: Env)
    ensures Direct(GetAirports, g, env)
         == (Airfields(2, [Airport(1000, 1000, [0, 0, 0]), Airport(2000, 2000, [0, 0, 0])]), g)
  {
    assert Zeros(3) == [0, 0, 0];
  }

  /** What each command character asks of a plane, and when it is refused. */
  function Ordered(kind: int, p: Plane): Plane {
    if kind == '1' as int then p.(speed := p.speed + 14)
    else if kind == '2' as int then p.(speed := p.speed - 14)
    else if kind == '3' as int then p.(heading := (p.heading + 45) % 360)
    else if kind == '4' as int then p.(heading := (p.heading + 315) % 360)
    else if kind == '5' as int then p.(elevation := p.elevation + 10)
    else p.(elevation := p.elevation - 10)
  }

  predicate OverTheLimit(kind: int, p: Plane) {
    || (kind == '1' as int && p.speed == 280)
    || (kind == '2' as int && p.speed == 42)
    || (kind == '5' as int && p.elevation == 30)
    || (kind == '6' as int && p.elevation == -30)
  }

  /** A command request: -1 and nothing done at a limit, otherwise 0 and the plane stored as
      ordered, with the current time. */
  lemma HandlerObeys(q: Request, g: Game, env: Env)
    requires '1' as int <= q.kind <= '6' as int
    requires ValidAttitude(q.plane) && OnMap(q.plane) && q.plane.z >= 0
    ensures Handle(q, g, env) ==
      if OverTheLimit(q.kind, q.plane) then (Answer(Ack(-1)), g)
      else (Answer(Ack(0)), g.(table := Put(g.table, Ordered(q.kind, q.plane.(time := env.now)))))
  {
    hide SetCommand, Put, Signed, Unsigned;
    var p := q.plane.(time := env.now);
    SetOnlySteers(g.table, CommandOf(q.kind), q.plane, env.now, env.inst);
    SteerEffect(CommandOf(q.kind), p);
    SteerRefuses(CommandOf(q.kind), p);
    SteersAsOrdered(q.kind, p);
  }

  lemma SteersAsOrdered(kind: int, p: Plane)
    requires CarriesPlane(kind) && ValidAttitude(p)
    ensures Refused(CommandOf(kind), p) <==> OverTheLimit(kind, p)
    ensures !OverTheLimit(kind, p) ==> Steer(CommandOf(kind), p).1 == Ordered(kind, p)
  {
    SmallAngles(p.heading);
    SmallAngles(if p.heading == 0 then 360 else p.heading);
    hide Signed, Unsigned;
  }

  /** All other requests: what is answered, and that only scans and new planes change the game. */
  lemma HandlerAnswers(q: Request, g: Game, env: Env)
    ensures q.kind == '7' as int && !env.fails ==> Handle(q, g, env).0 == Answer(PlaneList(Returned(g.table, env.now)))
    ensures q.kind == '8' as int ==>
      Handle(q, g, env)
      == (Answer(AirportList([Airport(1000, 1000, [0, 0, 0]), Airport(2000, 2000, [0, 0, 0])])), g)
    ensures q.kind == 'M' as int ==> Handle(q, g, env) == (Answer(Ack(g.landed)), g)
    ensures q.kind == 'N' as int ==> Handle(q, g, env) == (Answer(Ack(g.crashed)), g)
    ensures q.kind == 'O' as int ==>
      && Handle(q, g, env).0 == Answer(Ack(0))
      && if g.planesCount == 50 then Handle(q, g, env).1 == g
         else exists p :: CanBeNew(p, env.now) && Handle(q, g, env).1 == g.(table := Put(g.table, p))
    ensures q.kind == 'L' as int ==> Handle(q, g, env) == (HangUp, g)
    ensures (q.kind < '1' as int || q.kind > '8' as int) && (q.kind < 'L' as int || q.kind > 'O' as int) ==>
      Handle(q, g, env) == (Answer(Ack(0)), g)
  {
    AirportsOfTheGame(g, env);
    EveryDrawCanBeNew(env.draws, env.now);
    hide CanBeNew, SetCommand, SetPlane, Put, Returned, ScanTable, CountStatus, NewPlane;
  }

  /** The game after a sequence of requests. */
  function Served(qs: seq<Request>, g: Game, envs: nat -> Env): Game {
    if qs == [] then g
    else
      var n := |qs| - 1;
      Handle(qs[n], Served(qs[..n], g, envs), envs(n)).1
  }

  /** The server child as a service: the answer depends on the requests so far. */
  function ServiceOf(g: Game, envs: nat -> Env): Service {
    (qs: seq<Request>) =>
      if qs == [] then HangUp
      else Handle(qs[|qs| - 1], Served(qs[..|qs| - 1], g, envs), envs(|qs| - 1)).0
  }

  // ------------------------------------------------------------- values that fit

  /** Altitudes and scores still fit an `int`. */
  ghost predicate InRange(g: Game, now: int) {
    && FitsInt(g.crashed) && FitsInt(g.landed)
    && Sendable(PlaneList(Returned(g.table, now)))
  }

  /** With valid planes under 10^9 metres, none stamped more than half a year from now,
      what a scan returns always fits. */
  lemma SoonInRange(table: seq<Plane>, now: int)
    requires forall i :: 0 <= i < |table| ==>
      && Fits(table[i]) && ValidPlane(table[i]) && table[i].z <= 1_000_000_000
      && -8_000_000 <= now - table[i].time <= 8_000_000
    ensures Sendable(PlaneList(Returned(table, now)))
  {
    hide Advance, Fits, ValidPlane, Visible;
    forall k | 0 <= k < |Visible(table, now)| ensures Fits(Visible(table, now)[k]) {
      VisibleOnes(table, now, k);
      var i :| 0 <= i < |table| && Airborne(table[i], now) && Visible(table, now)[k] == Advance(table[i], now);
      AdvanceFits(table[i], now);
    }
    assert FitsInt(|Returned(table, now)|);
  }

  lemma AdvanceFits(p: Plane, now: int)
    requires Fits(p) && ValidPlane(p) && Airborne(p, now)
    requires p.z <= 1_000_000_000 && -8_000_000 <= now - p.time <= 8_000_000
    ensures Fits(Advance(p, now))
  {
    var dt := now - p.time;
    ClimbRateBound(p);
    ProductBound(ClimbRate(p), 1_400_000, dt, 8_000_000);
    TruncNear(ClimbRate(p) * dt + SCALE * p.z);
    WrapIsModulo(Travel(p.x, XRate(p), dt));
    WrapIsModulo(Travel(p.y, YRate(p), dt));
    hide ClimbRate, XRate, YRate, Wrap, Trunc;
  }

  lemma ClimbRateBound(p: Plane)
    requires ValidAttitude(p)
    ensures -1_400_000 <= ClimbRate(p) <= 1_400_000
  {
    assert -5000 <= Cos(p.elevation) <= 5000;
    ProductBound(Cos(p.elevation), 5000, p.speed, 280);
  }

  lemma ProductBound(a: int, m: nat, b: int, n: nat)
    requires -(m as int) <= a <= m && -(n as int) <= b <= n
    ensures -(m * n) <= a * b <= m * n
  {
    MulMonotone(b, n, m);
    MulMonotone(-b, n, m);
    if b >= 0 {
      MulMonotone(a, m, b);
      MulMonotone(-a, m, b);
      assert -a * b == -(a * b);
    } else {
      MulMonotone(a, m, -b);
      MulMonotone(-a, m, -b);
      assert a * -b == -(a * b) && -a * -b == a * b;
    }
  }

  lemma AnswerFits(q: Request, g: Game, env: Env)
    requires InRange(g, env.now)
    ensures Speakable(Handle(q, g, env).0)
  {
    hide Returned, SetCommand, ScanTable, CountStatus, Put, NewPlane, Fits;
  }
}
