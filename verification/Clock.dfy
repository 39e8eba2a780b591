/**
 How far a game can climb: as long as the clock does not run back and the game is younger
 than about three months, every number of every plane fits its C type.
 */
module Clock {
  import opened Words
  import opened Aircraft
  import opened Flight
  import opened PlaneStore
  import opened Fleet

  /** The longest game, in seconds, for which altitudes are sure to fit an `int`. */
  const HORIZON := 8_000_000

  /** The highest altitude after so many seconds: a new plane's, and 140 metres a second. */
  function Ceiling(seconds: int): int {
    10_000 + 140 * seconds
  }

  predicate Recent(p: Plane, t0: int, t: int) {
    t0 <= p.time <= t
  }

  /** A game that began at `t0` and stands at `t`. */
  ghost predicate Timely(w: World, t0: int, t: int) {
    && t0 <= t
    && (forall i :: 0 <= i < |w.table| && w.table[i].status == FLYING ==>
          Recent(w.table[i], t0, t) && w.table[i].z <= Ceiling(w.table[i].time - t0))
    && (forall k :: 0 <= k < |w.snapshot| ==>
          Recent(w.snapshot[k], t0, t) && w.snapshot[k].z <= Ceiling(t - t0))
  }

  /** The clock of a sequence of operations. */
  ghost predicate Ticks(ops: seq<Op>, t0: int, t: int) {
    && (forall k :: 0 <= k < |ops| ==> t <= ops[k].now <= t0 + HORIZON)
    && (forall j, k :: 0 <= j < k < |ops| ==> ops[j].now <= ops[k].now)
  }

  lemma NewGameIsTimely(t0: int)
    ensures Timely(NEW_GAME, t0, t0)
  {
  }

  lemma TruncBelow(n: int, m: nat)
    requires n <= SCALE * m
    ensures Trunc(n, SCALE) <= m
  {
  }

  lemma SteepestClimb(p: Plane)
    requires ValidAttitude(p)
    ensures ClimbRate(p) <= SCALE * 140
  {
    assert Cos(p.elevation) <= 5000;
    MulMonotone(Cos(p.elevation), 5000, p.speed);
    hide Cos;
  }

  /** No plane climbs more than 140 metres a second. */
  lemma AdvanceClimbs(p: Plane, now: int)
    requires ValidAttitude(p) && p.z >= 0 && p.time <= now
    ensures Advance(p, now).z <= p.z + 140 * (now - p.time)
    ensures Advance(p, now).time == p.time
  {
    hide ClimbRate, ValidAttitude, XRate, YRate, Wrap;
    var dt := now - p.time;
    SteepestClimb(p);
    MulMonotone(ClimbRate(p), SCALE * 140, dt);
    TruncBelow(ClimbRate(p) * dt + SCALE * p.z, p.z + 140 * dt);
    hide Trunc;
  }

  lemma SnapshotIsTimely(w: World, inst: Instants, t0: int, t: int, now: int, k: nat)
    requires Inv(w) && Timely(w, t0, t) && t <= now && k < |Visible(w.table, now)|
    ensures var p := Visible(w.table, now)[k]; Recent(p, t0, now) && p.z <= Ceiling(now - t0)
  {
    hide Advance, Below, Visible, ValidAttitude;
    VisibleOnes(w.table, now, k);
    var i :| 0 <= i < |w.table| && Airborne(w.table[i], now) && Visible(w.table, now)[k] == Advance(w.table[i], now);
    AdvanceClimbs(w.table[i], now);
  }

  lemma PollStaysTimely(w: World, inst: Instants, t0: int, t: int, now: int)
    requires Inv(w) && Timely(w, t0, t) && t <= now
    ensures Timely(Act(w, Poll(now), inst), t0, now)
  {
    var v := Act(w, Poll(now), inst);
    forall i | 0 <= i < |v.table| && v.table[i].status == FLYING
      ensures v.table[i] == w.table[i]
    {
      BroughtDownIsDown(w.table[i], inst(w.table[i], now));
    }
    forall k | 0 <= k < |v.snapshot| ensures Recent(v.snapshot[k], t0, now) && v.snapshot[k].z <= Ceiling(now - t0) {
      SnapshotIsTimely(w, inst, t0, t, now, k);
    }
    hide Scanned, Visible, CountStatus, Inv;
  }

  lemma PutStaysTimely(w: World, q: Plane, t0: int, t: int, now: int)
    requires Inv(w) && Timely(w, t0, t) && t <= now && GoodId(q.id)
    requires q.time == now && q.z <= Ceiling(now - t0)
    ensures Timely(w.(table := Put(w.table, q)), t0, now) && |Put(w.table, q)| <= |w.table| + 1
  {
    hide Put, IndexOf, GoodId, ValidPlane, RowOfSnapshot, CountStatus;
    PutEffect(w.table, q);
    hide Inv;
  }

  /** What a command to a displayed plane stores: the plane with the current time. */
  lemma CommandStores(w: World, cmd: int, index: nat, inst: Instants, now: int) returns (q: Plane)
    requires Inv(w) && index < |w.snapshot|
    ensures GoodId(q.id) && q.time == now && q.z == w.snapshot[index].z
    ensures var v := Act(w, Command(cmd, index, now), inst); v == w || v == w.(table := Put(w.table, q))
  {
    hide Inv, GoodId, Steer, Put, SetCommand, ValidAttitude;
    SnapshotHasGoodId(w, index);
    var p := w.snapshot[index];
    assert p.z >= 0 by { assert RowOfSnapshot(w.table, p) by { OnDisplay(w, index); } }
    q := Steer(cmd, p.(time := now)).1;
    SetOnlySteers(w.table, cmd, p, now, inst);
    SteerKeepsPlace(cmd, p.(time := now));
    SteerKeepsIdentity(cmd, p.(time := now));
    SteerKeepsHeight(cmd, p.(time := now));
  }

  lemma OnDisplay(w: World, k: nat)
    requires Inv(w) && k < |w.snapshot|
    ensures RowOfSnapshot(w.table, w.snapshot[k])
  {
    hide RowOfSnapshot;
  }

  lemma CommandStaysTimely(w: World, cmd: int, index: nat, inst: Instants, t0: int, t: int, now: int)
    requires Inv(w) && Timely(w, t0, t) && t <= now && index < |w.snapshot|
    ensures var v := Act(w, Command(cmd, index, now), inst); Timely(v, t0, now) && |v.table| <= |w.table| + 1
  {
    hide Inv, GoodId, Put, Act;
    var q := CommandStores(w, cmd, index, inst, now);
    PutStaysTimely(w, q, t0, t, now);
  }

  lemma SteerKeepsHeight(cmd: int, p: Plane)
    ensures Steer(cmd, p).1.z == p.z
  {
    hide Signed, Unsigned;
  }

  lemma SnapshotHasGoodId(w: World, k: nat)
    requires Inv(w) && k < |w.snapshot|
    ensures GoodId(w.snapshot[k].id) && ValidPlane(w.snapshot[k])
  {
    hide ValidPlane, GoodId;
    assert RowOfSnapshot(w.table, w.snapshot[k]);
  }

  /** Every operation keeps the game within what its clock allows, and adds at most a row. */
  lemma ActStaysTimely(w: World, op: Op, inst: Instants, t0: int, t: int)
    requires Inv(w) && Legal(w, op) && Timely(w, t0, t) && t <= op.now
    ensures var v := Act(w, op, inst); Timely(v, t0, op.now) && |v.table| <= |w.table| + 1
  {
    match op
    case Poll(now) => PollStaysTimely(w, inst, t0, t, now);
    case AskCrashed(_) =>
    case AskLanded(_) =>
    case Command(cmd, index, now) => CommandStaysTimely(w, cmd, index, inst, t0, t, now);
    case Create(r, now) =>
      NewPlaneIsValid(r, now);
      if w.planesCount != MAX_PLANES {
        PutStaysTimely(w, NewPlane(r, now), t0, t, now);
      }
  }

  lemma FitsWhileTimely(p: Plane, t0: int, t: int)
    requires ValidPlane(p) && p.status == FLYING && |p.id| == ID_LENGTH && Recent(p, t0, t)
    requires p.z <= Ceiling(t - t0) && t <= t0 + HORIZON && FitsLong(t0) && FitsLong(t)
    ensures Fits(p) && Fits(p.(time := Unsigned(p.time)))
  {
  }

  /** Every plane on display fits the C struct. */
  lemma DisplayedFits(w: World, t0: int, t: int, k: nat)
    requires Inv(w) && Timely(w, t0, t) && k < |w.snapshot|
    requires t <= t0 + HORIZON && FitsLong(t0) && FitsLong(t)
    ensures Fits(w.snapshot[k]) && Fits(w.snapshot[k].(time := Unsigned(w.snapshot[k].time)))
  {
    assert RowOfSnapshot(w.table, w.snapshot[k]);
    SnapshotHasGoodId(w, k);
    hide ValidPlane, Ceiling;
    GoodIdLength(w.snapshot[k].id);
    FitsWhileTimely(w.snapshot[k], t0, t);
  }

  /** So does every plane that a scan returns. */
  lemma ReturnedFits(w: World, inst: Instants, t0: int, t: int, now: int, k: nat)
    requires Inv(w) && Timely(w, t0, t) && t <= now <= t0 + HORIZON && FitsLong(t0) && FitsLong(now)
    requires k < |Returned(w.table, now)|
    ensures Fits(Returned(w.table, now)[k])
  {
    var v := Act(w, Poll(now), inst);
    PollKeepsInv(w, now, inst);
    PollStaysTimely(w, inst, t0, t, now);
    hide Inv, Timely, Returned, Fits, Act;
    ShownByPoll(w, inst, now);
    DisplayedFits(v, t0, now, k);
  }

  lemma ShownByPoll(w: World, inst: Instants, now: int)
    ensures Act(w, Poll(now), inst).snapshot == Returned(w.table, now)
  {
    hide Returned, ScanTable, CountStatus;
  }
}
