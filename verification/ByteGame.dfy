/**
 The same game down to single bytes: the client's process and the server's take their steps
 in any order, and what the client decodes is the game.
 */
module ByteGame {
  import opened Words
  import opened Aircraft
  import opened Flight
  import opened Fleet
  import opened Clock
  import opened PlaneStore
  import opened Serialize
  import Exchange
  import opened Proto
  import opened Session
  import opened Backend
  import opened Proxy
  import opened WireGame

  // ------------------------------------------------------------- the calls of a game

  /** The calls of a game: each command carries the plane as the last poll displayed it. */
  ghost function CallsOf(w: World, ops: seq<Op>, inst: Instants): (calls: seq<Call>)
    requires LegalRun(w, ops, inst)
    ensures |calls| == |ops|
  {
    seq(|ops|, k requires 0 <= k < |ops| => CallNumber(w, ops, inst, k))
  }

  ghost function CallNumber(w: World, ops: seq<Op>, inst: Instants, k: nat): Call
    requires LegalRun(w, ops, inst) && k < |ops|
  {
    OneMoreAct(w, ops, inst, k);
    CallOf(ops[k], TruncatedAll(WorldAfter(w, ops, inst, k).snapshot))
  }

  ghost predicate Meets(ops: seq<Op>, inst: Instants, envs: nat -> Env) {
    forall k :: 0 <= k < |ops| ==> (ops[k].Create? ==> |ops[k].r| == 11) && envs(k) == EnvOf(ops[k], inst)
  }

  /** What an operation gives directly. */
  lemma DirectIsAct(w: World, op: Op, inst: Instants)
    requires Legal(w, op)
    ensures
      var (r, h) := Direct(CallOf(op, TruncatedAll(w.snapshot)), GameOf(w), EnvOf(op, inst));
      var v := Act(w, op, inst);
      && h == GameOf(v)
      && (op.Poll? ==> r == Planes(|v.snapshot|, v.snapshot))
      && (op.AskCrashed? ==> r == Code(v.shownCrashed))
      && (op.AskLanded? ==> r == Code(v.shownLanded))
  {
    hide SetCommand, SetPlane, Returned, ScanTable, CountStatus, Put, NewPlane;
    if op.Command? {
      StampHidesTime(w.table, op.cmd, w.snapshot[op.index], op.now, inst);
    }
  }

  /** The game after the first `k` calls. */
  lemma {:induction false} GameAfter(w: World, ops: seq<Op>, inst: Instants, envs: nat -> Env, k: nat)
    requires LegalRun(w, ops, inst) && Meets(ops, inst, envs) && k <= |ops|
    ensures DirectAll(CallsOf(w, ops, inst)[..k], GameOf(w), envs) == GameOf(WorldAfter(w, ops, inst, k))
  {
    hide Act, Direct, LegalRun, GameOf, EnvOf, CallOf, WorldAfter, Legal;
    var calls := CallsOf(w, ops, inst);
    if k == 0 {
      FirstWorld(w, ops, inst);
    } else {
      GameAfter(w, ops, inst, envs, k - 1);
      OneMoreAct(w, ops, inst, k - 1);
      DirectIsAct(WorldAfter(w, ops, inst, k - 1), ops[k - 1], inst);
      assert calls[..k][..k - 1] == calls[..k - 1];
      assert calls[k - 1] == CallNumber(w, ops, inst, k - 1);
    }
  }

  // ------------------------------------------------------------- numbers in range

  function ClockAt(ops: seq<Op>, t: int, k: nat): int
    requires k <= |ops|
  {
    if k == 0 then t else ops[k - 1].now
  }

  lemma {:induction false} TimelyAfter(w: World, ops: seq<Op>, inst: Instants, t0: int, t: int, k: nat)
    requires Playing(w, ops, inst, t0, t) && k <= |ops|
    ensures var v := WorldAfter(w, ops, inst, k);
      Fleet.Inv(v) && Timely(v, t0, ClockAt(ops, t, k)) && |v.table| <= |w.table| + k
  {
    hide Fleet.Inv, Act, LegalRun, Legal, WorldAfter, Timely;
    if k == 0 {
      FirstWorld(w, ops, inst);
    } else {
      TimelyAfter(w, ops, inst, t0, t, k - 1);
      OneMoreAct(w, ops, inst, k - 1);
      var v := WorldAfter(w, ops, inst, k - 1);
      ActKeepsInv(v, ops[k - 1], inst);
      ActStaysTimely(v, ops[k - 1], inst, t0, ClockAt(ops, t, k - 1));
    }
  }

  lemma ClockRuns(ops: seq<Op>, t0: int, t: int, k: nat)
    requires Ticks(ops, t0, t) && k < |ops|
    ensures ClockAt(ops, t, k) <= ops[k].now <= t0 + HORIZON
  {
  }

  lemma CallIsPlayable(w: World, ops: seq<Op>, inst: Instants, t0: int, t: int, k: nat)
    requires Playing(w, ops, inst, t0, t) && k < |ops| && Sent(ops[k])
    ensures LegalRun(w, ops, inst)
    ensures Forwarded(CallNumber(w, ops, inst, k)) && Holds(CallNumber(w, ops, inst, k))
    ensures InRange(GameOf(WorldAfter(w, ops, inst, k)), ops[k].now)
  {
    hide Fleet.Inv, LegalRun, Legal, WorldAfter, InRange, Holds, GameOf, Act, Ticks;
    var v, now := WorldAfter(w, ops, inst, k), ClockAt(ops, t, k);
    TimelyAfter(w, ops, inst, t0, t, k);
    ClockRuns(ops, t0, t, k);
    OneMoreAct(w, ops, inst, k);
    assert t0 <= now;
    hide Timely;
    GameInRange(v, inst, t0, now, ops[k].now);
    CallHolds(v, ops[k], t0, now);
  }

  lemma PlayingIsPlayable(w: World, ops: seq<Op>, inst: Instants, envs: nat -> Env, t0: int, t: int)
    requires Playing(w, ops, inst, t0, t) && Meets(ops, inst, envs) && forall k :: 0 <= k < |ops| ==> Sent(ops[k])
    ensures LegalRun(w, ops, inst) && Playable(CallsOf(w, ops, inst), GameOf(w), envs)
  {
    assert LegalRun(w, ops, inst);
    hide Playing, Sent, LegalRun, Legal, WorldAfter, InRange, Holds, Forwarded, GameOf, Act, DirectAll;
    var calls := CallsOf(w, ops, inst);
    forall k | 0 <= k < |ops|
      ensures Forwarded(calls[k]) && Holds(calls[k]) && InRange(DirectAll(calls[..k], GameOf(w), envs), envs(k).now)
    {
      CallIsPlayable(w, ops, inst, t0, t, k);
      GameAfter(w, ops, inst, envs, k);
    }
  }

  // ------------------------------------------------------------- what the client hears

  /** The planes in the bytes of an answer, and the code in them. */
  ghost function PlanesHeard(chunks: seq<seq<byte>>): seq<Plane> {
    if Exchange.ReplyShape(chunks) && DecodeChunks(chunks).PlaneList? then DecodeChunks(chunks).planes else []
  }

  ghost function CodeHeard(chunks: seq<seq<byte>>): int {
    if Exchange.ReplyShape(chunks) && DecodeChunks(chunks).Ack? then DecodeChunks(chunks).code else 0
  }

  /** The answer to an operation is what the client's display becomes, and it is sound. */
  ghost predicate Told(v: World, op: Op, chunks: seq<seq<byte>>) {
    && (op.Poll? ==>
          && PlanesHeard(chunks) == TruncatedAll(v.snapshot)
          && forall i :: 0 <= i < |PlanesHeard(chunks)| ==> RowOfSnapshot(v.table, PlanesHeard(chunks)[i]))
    && (op.AskCrashed? ==> CodeHeard(chunks) == v.shownCrashed)
    && (op.AskLanded? ==> CodeHeard(chunks) == v.shownLanded)
  }

  lemma AnswerTold(v: World, op: Op, call: Call, env: Env, direct: Result, chunks: seq<seq<byte>>)
    requires AnsweredAlike(call, env, direct, chunks) && !env.fails && Fleet.Inv(v)
    requires op.Poll? ==> call == GetAirplanes && direct == Planes(|v.snapshot|, v.snapshot)
    requires op.AskCrashed? ==> call == GetCrashed && direct == Code(v.shownCrashed)
    requires op.AskLanded? ==> call == GetLanded && direct == Code(v.shownLanded)
    ensures Told(v, op, chunks)
  {
    hide Exchange.ReplyShape, DecodeChunks, ValidPlane, CountStatus, GoodIds;
    if op.Poll? {
      forall i | 0 <= i < |v.snapshot| ensures RowOfSnapshot(v.table, Truncated(v.snapshot[i])) {
        assert RowOfSnapshot(v.table, v.snapshot[i]);
        TimeIsFree(v.snapshot[i]);
      }
    }
  }

  lemma ToldInBytes(w: World, ops: seq<Op>, inst: Instants, envs: nat -> Env, k: nat, chunks: seq<seq<byte>>)
    requires Fleet.Inv(w) && LegalRun(w, ops, inst) && Meets(ops, inst, envs) && k < |ops|
    requires var calls := CallsOf(w, ops, inst);
      AnsweredAlike(calls[k], envs(k), DirectResult(calls, GameOf(w), envs, k), chunks)
    ensures Told(WorldAfter(w, ops, inst, k + 1), ops[k], chunks)
  {
    hide Direct, DirectAll, GameOf, AnsweredAlike, Told, WorldAfter, LegalRun, Legal, Act, Fleet.Inv;
    var calls := CallsOf(w, ops, inst);
    OneMoreAct(w, ops, inst, k);
    GameAfter(w, ops, inst, envs, k);
    DirectIsAct(WorldAfter(w, ops, inst, k), ops[k], inst);
    InvAfter(w, ops, inst, k + 1);
    assert calls[k] == CallNumber(w, ops, inst, k);
    var direct := DirectResult(calls, GameOf(w), envs, k);
    AnswerTold(WorldAfter(w, ops, inst, k + 1), ops[k], calls[k], envs(k), direct, chunks);
  }

  // ------------------------------------------------------------- the main result, byte by byte

  /** The plan of the two processes for this game. */
  ghost function GamePlan(w: World, ops: seq<Op>, inst: Instants, envs: nat -> Env, tails: Tails, t0: int, t: int)
    : (plan: seq<Exchange.Turn>)
    requires Playing(w, ops, inst, t0, t) && Meets(ops, inst, envs) && forall k :: 0 <= k < |ops| ==> Sent(ops[k])
    ensures LegalRun(w, ops, inst) && Playable(CallsOf(w, ops, inst), GameOf(w), envs)
    ensures plan == SessionPlan(CallsOf(w, ops, inst), GameOf(w), envs, tails)
  {
    PlayingIsPlayable(w, ops, inst, envs, t0, t);
    SessionPlan(CallsOf(w, ops, inst), GameOf(w), envs, tails)
  }

  /** Of what the client has heard by now, no score is below an earlier one. */
  ghost predicate ScoresNeverBack(ops: seq<Op>, log: seq<seq<seq<byte>>>) {
    forall j, k :: 0 <= j < k < |log| && k < |ops| ==>
      && (ops[j].AskCrashed? && ops[k].AskCrashed? ==> CodeHeard(log[j]) <= CodeHeard(log[k]))
      && (ops[j].AskLanded? && ops[k].AskLanded? ==> CodeHeard(log[j]) <= CodeHeard(log[k]))
  }

  /** Each command carries a plane of the list that the client has heard last. */
  ghost predicate CommandsFollowPolls(ops: seq<Op>, calls: seq<Call>, log: seq<seq<seq<byte>>>)
    requires |calls| == |ops|
  {
    forall j, k :: 0 <= j < |log| && j < k < |ops| && ops[j].Poll? && ops[k].Command? && NoPoll(ops, j + 1, k) ==>
      && ops[k].index < |PlanesHeard(log[j])|
      && calls[k] == Set(ops[k].cmd, PlanesHeard(log[j])[ops[k].index])
  }

  lemma ToldScores(w: World, ops: seq<Op>, inst: Instants, log: seq<seq<seq<byte>>>)
    requires Fleet.Inv(w) && LegalRun(w, ops, inst)
    requires forall k :: 0 <= k < |log| && k < |ops| ==> Told(WorldAfter(w, ops, inst, k + 1), ops[k], log[k])
    ensures ScoresNeverBack(ops, log)
  {
    hide Fleet.Inv, LegalRun, WorldAfter, CodeHeard, PlanesHeard, RowOfSnapshot;
    forall j, k | 0 <= j < k < |log| && k < |ops|
      ensures ops[j].AskCrashed? && ops[k].AskCrashed? ==> CodeHeard(log[j]) <= CodeHeard(log[k])
      ensures ops[j].AskLanded? && ops[k].AskLanded? ==> CodeHeard(log[j]) <= CodeHeard(log[k])
    {
      ScoresInOrder(w, ops, inst, j + 1, k + 1);
      assert Told(WorldAfter(w, ops, inst, j + 1), ops[j], log[j]);
      assert Told(WorldAfter(w, ops, inst, k + 1), ops[k], log[k]);
    }
  }

  lemma ToldPlanes(w: World, ops: seq<Op>, inst: Instants, log: seq<seq<seq<byte>>>)
    requires LegalRun(w, ops, inst)
    requires forall k :: 0 <= k < |log| && k < |ops| ==> Told(WorldAfter(w, ops, inst, k + 1), ops[k], log[k])
    ensures CommandsFollowPolls(ops, CallsOf(w, ops, inst), log)
  {
    hide LegalRun, WorldAfter, CodeHeard, PlanesHeard, RowOfSnapshot, NoPoll, Act;
    var calls := CallsOf(w, ops, inst);
    forall j, k | 0 <= j < |log| && j < k < |ops| && ops[j].Poll? && ops[k].Command? && NoPoll(ops, j + 1, k)
      ensures ops[k].index < |PlanesHeard(log[j])|
      ensures calls[k] == Set(ops[k].cmd, PlanesHeard(log[j])[ops[k].index])
    {
      assert Told(WorldAfter(w, ops, inst, j + 1), ops[j], log[j]);
      SameDisplay(w, ops, inst, j + 1, k);
      OneMoreAct(w, ops, inst, k);
      assert calls[k] == CallNumber(w, ops, inst, k);
    }
  }

  /** The main result, byte by byte.  Over every interleaving of single steps of the client's
      process and the server's: the game behind the server is the game after the operations
      received so far; every finished poll has given the client exactly the planes of the game
      at that point, all valid and flying in the store; the scores it has heard never go back;
      the commands it sends carry planes of the last list it has heard; and both processes
      stop only when the game is over, with the server hung up. */
  lemma GameInBytes(w: World, ops: seq<Op>, inst: Instants, envs: nat -> Env, tails: Tails, t0: int, t: int,
                    run: seq<Exchange.System>)
    requires Playing(w, ops, inst, t0, t) && Meets(ops, inst, envs) && forall k :: 0 <= k < |ops| ==> Sent(ops[k])
    requires Exchange.IsRun(GamePlan(w, ops, inst, envs, tails, t0, t), OnBytes(ServiceOf(GameOf(w), envs), tails), run)
    ensures LegalRun(w, ops, inst)
    ensures var y, calls := run[|run| - 1], CallsOf(w, ops, inst);
      && |y.c.log| == y.c.turn <= |ops| + 1
      && Framed(y.s.received)
      && GameBehind(y.s.received, GameOf(w), envs) == GameOf(WorldAfter(w, ops, inst, AtMost(|y.s.received|, |ops|)))
      && (forall k :: 0 <= k < y.c.turn && k < |ops| ==> Told(WorldAfter(w, ops, inst, k + 1), ops[k], y.c.log[k]))
      && ScoresNeverBack(ops, y.c.log)
      && CommandsFollowPolls(ops, calls, y.c.log)
      && (y.c.turn == |ops| + 1 ==> CodeHeard(y.c.log[|ops|]) == -1)
      && (Exchange.Halted(SessionFrames(calls), OnBytes(ServiceOf(GameOf(w), envs), tails), y) ==>
            y.c.turn == |ops| + 1 && y.s.pc == Exchange.SClosed)
  {
    hide Playable, OnBytes, ServiceOf, SessionPlan, CallsOf, Direct, DirectAll, GameOf, AnsweredAlike, Told, Sent,
         WorldAfter, LegalRun, Legal, Act, Fleet.Inv, GameBehind, Ticks, Timely, Meets, ScoresNeverBack,
         CommandsFollowPolls, Exchange.AtRest, Exchange.Halted, Framed;
    PlayingIsPlayable(w, ops, inst, envs, t0, t);
    var calls, y := CallsOf(w, ops, inst), run[|run| - 1];
    GameOverTheWire(calls, GameOf(w), envs, tails, run);
    GameAfter(w, ops, inst, envs, AtMost(|y.s.received|, |ops|));
    forall k | 0 <= k < y.c.turn && k < |ops| ensures Told(WorldAfter(w, ops, inst, k + 1), ops[k], y.c.log[k]) {
      ToldInBytes(w, ops, inst, envs, k, y.c.log[k]);
    }
    ToldScores(w, ops, inst, y.c.log);
    ToldPlanes(w, ops, inst, y.c.log);
  }
}
