/**
 One client's game played through the proxies: the same game as without them, so that
 everything `Fleet` proves of runs holds of the store, of what crosses the wire and of what
 the client displays.
 */
module WireGame {
  import opened Words
  import opened Aircraft
  import opened Flight
  import opened Fleet
  import opened Clock
  import opened PlaneStore
  import opened Serialize
  import opened Proto
  import opened Session
  import opened Backend
  import opened Proxy

  function GameOf(w: World): Game {
    Game(w.table, w.planesCount, w.crashed, w.landed)
  }

  /** The game behind the client's server, and what the client displays. */
  datatype Display = Display(game: Game, planes: seq<Plane>, crashed: int, landed: int)

  function DisplayOf(w: World): Display {
    Display(GameOf(w), TruncatedAll(w.snapshot), w.shownCrashed, w.shownLanded)
  }

  ghost predicate Asks(op: Op, planes: seq<Plane>) {
    && (op.Create? ==> |op.r| == 11)
    && (op.Command? ==> op.index < |planes|)
  }

  function CallOf(op: Op, planes: seq<Plane>): Call
    requires Asks(op, planes)
  {
    match op
    case Poll(_) => GetAirplanes
    case AskCrashed(_) => GetCrashed
    case AskLanded(_) => GetLanded
    case Command(cmd, index, _) => Set(cmd, planes[index])
    case Create(_, _) => CreatePlane
  }

  function EnvOf(op: Op, inst: Instants): Env
    requires op.Create? ==> |op.r| == 11
  {
    Env(op.now, inst, if op.Create? then op.r else [0, 0, 0, 0, 0, 0, 0, 0, 0, 0, 0], false)
  }

  /** The numbers of this step fit the wire. */
  ghost predicate Sends(d: Display, op: Op, inst: Instants) {
    && Asks(op, d.planes)
    && Holds(CallOf(op, d.planes)) && InRange(d.game, op.now)
  }

  /** One step of the client, with the call going through the proxy. */
  ghost function ActByWire(d: Display, op: Op, inst: Instants, tail: Tail): Display
    requires Sends(d, op, inst)
  {
    var (r, h) := Proxied(CallOf(op, d.planes), d.game, EnvOf(op, inst), tail);
    ResultShape(CallOf(op, d.planes), d.game, EnvOf(op, inst), tail);
    match op
    case Poll(_) => d.(game := h, planes := r.buff)
    case AskCrashed(_) => d.(game := h, crashed := r.r)
    case AskLanded(_) => d.(game := h, landed := r.r)
    case _ => d.(game := h)
  }

  lemma ResultShape(call: Call, g: Game, env: Env, tail: Tail)
    requires Holds(call) && InRange(g, env.now)
    ensures var r := Proxied(call, g, env, tail).0;
      (call.GetAirplanes? ==> r.Planes?) && (call.GetCrashed? || call.GetLanded? ==> r.Code?)
  {
    hide RequestFrame, FrameRequest, Handle, DecodeChunks, Chunks, InRange;
  }

  /** Every step through the proxy does to the display what it does to the game directly. */
  lemma ActIsTheSame(w: World, op: Op, inst: Instants, tail: Tail)
    requires Legal(w, op) && Sends(DisplayOf(w), op, inst)
    requires op.Command? ==> KnownCommand(op.cmd) || w.snapshot[op.index].z >= 0
    ensures ActByWire(DisplayOf(w), op, inst, tail) == DisplayOf(Act(w, op, inst))
  {
    hide Proxied, SetCommand, Returned, ScanTable, CountStatus, Put, NewPlane, InRange, Unchanged, SetPlane;
    var d := DisplayOf(w);
    var call, env := CallOf(op, d.planes), EnvOf(op, inst);
    ProxyIsFaithful(call, d.game, env, tail);
    if op.Command? {
      StampHidesTime(w.table, op.cmd, w.snapshot[op.index], op.now, inst);
      assert d.planes[op.index].z == w.snapshot[op.index].z;
    }
    ResultShape(call, d.game, env, tail);
  }

  ghost predicate SendsAll(d: Display, ops: seq<Op>, inst: Instants, tail: Tail)
    decreases |ops|
  {
    ops == [] || (Sends(d, ops[0], inst) && SendsAll(ActByWire(d, ops[0], inst, tail), ops[1..], inst, tail))
  }

  ghost function RunByWire(d: Display, ops: seq<Op>, inst: Instants, tail: Tail): Display
    requires SendsAll(d, ops, inst, tail)
    decreases |ops|
  {
    if ops == [] then d else RunByWire(ActByWire(d, ops[0], inst, tail), ops[1..], inst, tail)
  }

  lemma OnDisplayIsFlying(w: World, k: nat)
    requires Fleet.Inv(w) && k < |w.snapshot|
    ensures w.snapshot[k].z >= 0
  {
    hide ValidAttitude;
    assert RowOfSnapshot(w.table, w.snapshot[k]);
  }

  /** A whole game by wire is the game played directly, even with the command 6 that the
      client's keyboard lets through. */
  lemma {:induction false} RunIsTheSame(w: World, ops: seq<Op>, inst: Instants, tail: Tail)
    requires Fleet.Inv(w) && LegalRun(w, ops, inst) && SendsAll(DisplayOf(w), ops, inst, tail)
    ensures RunByWire(DisplayOf(w), ops, inst, tail) == DisplayOf(Run(w, ops, inst))
    decreases |ops|
  {
    hide Sends, Act, ActByWire, DisplayOf, Fleet.Inv;
    if ops != [] {
      if ops[0].Command? { OnDisplayIsFlying(w, ops[0].index); }
      ActKeepsInv(w, ops[0], inst);
      ActIsTheSame(w, ops[0], inst, tail);
      RunIsTheSame(Act(w, ops[0], inst), ops[1..], inst, tail);
    }
  }

  /** What the proxy does not send does not happen to a displayed plane either. */
  lemma UnknownChangesNothing(w: World, op: Op, inst: Instants)
    requires Fleet.Inv(w) && Legal(w, op) && !Sent(op)
    ensures Act(w, op, inst) == w
  {
    OnDisplayIsFlying(w, op.index);
    UnknownCommand(op.cmd, w.snapshot[op.index], w.table, EnvOf(op, inst));
    hide SetCommand, Fleet.Inv;
  }

  /** The operations that make a request; the keyboard also lets the command 6 through. */
  predicate Sent(op: Op) {
    op.Command? ==> KnownCommand(op.cmd)
  }

  function OnlySent(ops: seq<Op>): (r: seq<Op>)
    ensures forall k :: 0 <= k < |r| ==> Sent(r[k])
  {
    if ops == [] then [] else (if Sent(ops[0]) then [ops[0]] else []) + OnlySent(ops[1..])
  }

  /** So a game is the game of the operations that are sent. */
  lemma {:induction false} SentIsTheGame(w: World, ops: seq<Op>, inst: Instants)
    requires Fleet.Inv(w) && LegalRun(w, ops, inst)
    ensures LegalRun(w, OnlySent(ops), inst) && Run(w, OnlySent(ops), inst) == Run(w, ops, inst)
    decreases |ops|
  {
    hide Fleet.Inv, Act, Sent;
    if ops != [] {
      ActKeepsInv(w, ops[0], inst);
      SentIsTheGame(Act(w, ops[0], inst), ops[1..], inst);
      if Sent(ops[0]) {
        assert OnlySent(ops)[1..] == OnlySent(ops[1..]);
      } else {
        UnknownChangesNothing(w, ops[0], inst);
        assert OnlySent(ops) == OnlySent(ops[1..]);
      }
    }
  }

  // ------------------------------------------------------------- numbers in range

  /** A game that can be played: a sound start, legal operations, and a clock that does not
      run back and stays within the horizon. */
  ghost predicate Playing(w: World, ops: seq<Op>, inst: Instants, t0: int, t: int) {
    && Fleet.Inv(w) && LegalRun(w, ops, inst)
    && Timely(w, t0, t) && Ticks(ops, t0, t) && FitsLong(t0) && FitsLong(t0 + HORIZON)
    && |w.table| + |ops| < TWO31
  }

  /** Such a start: the empty table, at any time. */
  lemma NewGameCanBePlayed(ops: seq<Op>, inst: Instants, t0: int)
    requires LegalRun(NEW_GAME, ops, inst) && Ticks(ops, t0, t0) && |ops| < TWO31
    requires FitsLong(t0) && FitsLong(t0 + HORIZON)
    ensures Playing(NEW_GAME, ops, inst, t0, t0)
  {
    hide LegalRun, Ticks, Fleet.Inv;
    NewGameInv();
    NewGameIsTimely(t0);
  }

  lemma NextPlaying(w: World, ops: seq<Op>, inst: Instants, t0: int, t: int)
    requires Playing(w, ops, inst, t0, t) && ops != []
    ensures Legal(w, ops[0]) && Playing(Act(w, ops[0], inst), ops[1..], inst, t0, ops[0].now)
    decreases |ops|
  {
    hide Fleet.Inv, Act, Timely, Legal;
    ActKeepsInv(w, ops[0], inst);
    ActStaysTimely(w, ops[0], inst, t0, t);
  }

  lemma {:induction false} ScoreFits(table: seq<Plane>, status: int)
    requires |table| < TWO31
    ensures FitsInt(CountStatus(table, status))
  {
  }

  /** In such a game every answer fits the wire. */
  lemma GameInRange(w: World, inst: Instants, t0: int, t: int, now: int)
    requires Fleet.Inv(w) && Timely(w, t0, t) && t <= now <= t0 + HORIZON && FitsLong(t0) && FitsLong(now)
    requires |w.table| < TWO31
    ensures InRange(GameOf(w), now)
  {
    hide Timely, Fits, GoodIds, ValidPlane, RowOfSnapshot, Returned, CountStatus;
    ScoreFits(w.table, CRASHED);
    ScoreFits(w.table, LANDED);
    forall k | 0 <= k < |Returned(w.table, now)| ensures Fits(Returned(w.table, now)[k]) {
      ReturnedFits(w, inst, t0, t, now, k);
    }
  }

  lemma CallHolds(w: World, op: Op, t0: int, t: int)
    requires Fleet.Inv(w) && Timely(w, t0, t) && Legal(w, op)
    requires t <= t0 + HORIZON && FitsLong(t0) && FitsLong(t)
    ensures Asks(op, TruncatedAll(w.snapshot)) && Holds(CallOf(op, TruncatedAll(w.snapshot)))
  {
    hide Timely, Fits, Fleet.Inv;
    if op.Command? { DisplayedFits(w, t0, t, op.index); }
  }

  lemma NextSends(w: World, ops: seq<Op>, inst: Instants, t0: int, t: int)
    requires Playing(w, ops, inst, t0, t) && ops != []
    ensures Sends(DisplayOf(w), ops[0], inst)
  {
    hide Fleet.Inv, Act, Legal, InRange;
    GameInRange(w, inst, t0, t, ops[0].now);
    CallHolds(w, ops[0], t0, t);
  }

  lemma {:induction false} PlayingSends(w: World, ops: seq<Op>, inst: Instants, tail: Tail, t0: int, t: int)
    requires Playing(w, ops, inst, t0, t)
    ensures SendsAll(DisplayOf(w), ops, inst, tail)
    decreases |ops|
  {
    if ops != [] {
      NextSends(w, ops, inst, t0, t);
      NextPlaying(w, ops, inst, t0, t);
      if ops[0].Command? { FirstCommand(w, ops, inst, t0, t); }
      hide Playing, Sends, Act, ActByWire, DisplayOf, Legal;
      ActIsTheSame(w, ops[0], inst, tail);
      PlayingSends(Act(w, ops[0], inst), ops[1..], inst, tail, t0, ops[0].now);
    }
  }

  lemma FirstCommand(w: World, ops: seq<Op>, inst: Instants, t0: int, t: int)
    requires Playing(w, ops, inst, t0, t) && ops != [] && ops[0].Command?
    ensures Legal(w, ops[0]) && w.snapshot[ops[0].index].z >= 0
  {
    hide Fleet.Inv, Act, Timely;
    OnDisplayIsFlying(w, ops[0].index);
  }

  // ------------------------------------------------------------- the main result, call by call

  /** Along every game by wire, every plane in the store and every plane the client has decoded
      and displays is valid, displayed planes are flying in the store, planes once down stay
      as they are, and neither score the client has decoded and displays goes back. */
  lemma GameByWireIsSafe(w: World, ops: seq<Op>, inst: Instants, tail: Tail, t0: int, t: int)
    requires Playing(w, ops, inst, t0, t)
    ensures SendsAll(DisplayOf(w), ops, inst, tail)
    ensures var d := RunByWire(DisplayOf(w), ops, inst, tail);
      && (forall i :: 0 <= i < |d.game.table| ==> ValidPlane(d.game.table[i]))
      && (forall k :: 0 <= k < |d.planes| ==> RowOfSnapshot(d.game.table, d.planes[k]))
      && KeepsDown(w.table, d.game.table)
      && w.shownCrashed <= d.crashed && w.shownLanded <= d.landed
  {
    PlayingSends(w, ops, inst, tail, t0, t);
    hide ValidPlane, KeepsDown, RunByWire, Run, LegalRun, SendsAll, Timely, Ticks, GoodIds, CountStatus;
    RunIsTheSame(w, ops, inst, tail);
    RunIsSafe(w, ops, inst);
    var v := Run(w, ops, inst);
    forall k | 0 <= k < |v.snapshot| ensures RowOfSnapshot(v.table, Truncated(v.snapshot[k])) {
      assert RowOfSnapshot(v.table, v.snapshot[k]);
      TimeIsFree(v.snapshot[k]);
    }
  }

  lemma TimeIsFree(p: Plane)
    ensures ValidPlane(Truncated(p)) <==> ValidPlane(p)
  {
  }
}
