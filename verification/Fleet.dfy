/**
 The game as a table of planes: what one scan, one command and one new plane do to it,
 and what whole runs of a client keep.  Landing instants are an arbitrary function.
 */
module Fleet {
  import opened Words
  import opened Aircraft
  import opened Flight
  import opened PlaneStore

  /** The landing time computed for a plane found under ground at some time: any `int`. */
  type Instants = (Plane, int) -> int32

  // ------------------------------------------------------------- one scan

  predicate Falling(p: Plane, now: int) {
    p.status == FLYING && Below(p, now)
  }

  predicate Airborne(p: Plane, now: int) {
    p.status == FLYING && !Below(p, now)
  }

  /** What a scan leaves in one row: planes still in the air are not written back. */
  function Scanned(p: Plane, now: int, inst: Instants): Plane {
    if Falling(p, now) then BringDown(p, inst(p, now)) else p
  }

  function ScanTable(table: seq<Plane>, now: int, inst: Instants): (r: seq<Plane>)
    ensures |r| == |table| && forall i :: 0 <= i < |table| ==> r[i] == Scanned(table[i], now, inst)
  {
    seq(|table|, i requires 0 <= i < |table| => Scanned(table[i], now, inst))
  }

  /** The planes in the air, moved to where they are now, in table order. */
  function Visible(table: seq<Plane>, now: int): (r: seq<Plane>)
    ensures |r| <= |table|
  {
    if table == [] then []
    else
      var n := |table| - 1;
      Visible(table[..n], now) + if Airborne(table[n], now) then [Advance(table[n], now)] else []
  }

  /** What fits into the caller's buffer. */
  function Returned(table: seq<Plane>, now: int): (r: seq<Plane>)
    ensures |r| <= MAX_PLANES
  {
    var v := Visible(table, now);
    if |v| <= MAX_PLANES then v else v[..MAX_PLANES]
  }

  function CountStatus(table: seq<Plane>, status: int): (n: nat)
    ensures n <= |table|
  {
    if table == [] then 0
    else CountStatus(table[..|table| - 1], status) + if table[|table| - 1].status == status then 1 else 0
  }

  /** Planes a scan brings down. */
  function CountFalling(table: seq<Plane>, now: int): (n: nat)
    ensures n <= |table|
  {
    if table == [] then 0
    else CountFalling(table[..|table| - 1], now) + if Falling(table[|table| - 1], now) then 1 else 0
  }

  function CountDown(table: seq<Plane>): nat {
    CountStatus(table, CRASHED) + CountStatus(table, LANDED)
  }

  predicate KnownStatus(table: seq<Plane>) {
    forall i :: 0 <= i < |table| ==> table[i].status in {LANDED, CRASHED, FLYING}
  }

  /** Every plane is accounted for: returned, beyond the buffer, crashed, landed, or
      brought down by this very scan; the next scan counts the last group as down. */
  lemma {:induction false} ScanConserves(table: seq<Plane>, now: int, inst: Instants)
    requires KnownStatus(table)
    ensures |table| == |Visible(table, now)| + CountFalling(table, now)
                       + CountStatus(table, CRASHED) + CountStatus(table, LANDED)
    ensures |Returned(table, now)| == if |Visible(table, now)| > 50 then 50 else |Visible(table, now)|
    ensures CountDown(ScanTable(table, now, inst)) == CountDown(table) + CountFalling(table, now)
    ensures KnownStatus(ScanTable(table, now, inst))
  {
    hide Below, BringDown, Advance;
    if table != [] {
      var n := |table| - 1;
      ScanConserves(table[..n], now, inst);
      var r := ScanTable(table, now, inst);
      assert r[..n] == ScanTable(table[..n], now, inst);
      if Falling(table[n], now) { BroughtDownIsKnown(table[n], inst(table[n], now)); }
    }
  }

  lemma BroughtDownIsKnown(p: Plane, instant: int)
    ensures BringDown(p, instant).status in {LANDED, CRASHED}
  {
    hide SetXY, InZone;
  }

  // ------------------------------------------------------------- extra polls

  function Polled(table: seq<Plane>, times: seq<int>, inst: Instants): (r: seq<Plane>)
    ensures |r| == |table|
  {
    if times == [] then table
    else ScanTable(Polled(table, times[..|times| - 1], inst), times[|times| - 1], inst)
  }

  lemma {:induction false} VisibleAgrees(a: seq<Plane>, b: seq<Plane>, now: int)
    requires |a| == |b|
    requires forall i :: 0 <= i < |a| ==>
      (Airborne(a[i], now) <==> Airborne(b[i], now)) && (Airborne(a[i], now) ==> a[i] == b[i])
    ensures Visible(a, now) == Visible(b, now)
  {
    hide Airborne, Advance;
    if a != [] { VisibleAgrees(a[..|a| - 1], b[..|b| - 1], now); }
  }

  /** A row after polls is either untouched, or down and under ground ever since. */
  lemma {:induction false} PolledRow(table: seq<Plane>, times: seq<int>, inst: Instants, i: nat, last: int)
    requires i < |table| && (table[i].status == FLYING ==> table[i].z >= 0)
    requires forall k :: 0 <= k < |times| ==> table[i].time <= times[k] <= last
    ensures var p, q := table[i], Polled(table, times, inst)[i];
      q == p || (p.status == FLYING && q.status != FLYING && Below(p, last))
  {
    hide Below, BringDown;
    if times != [] {
      var n := |times| - 1;
      PolledRow(table, times[..n], inst, i, last);
      var p := Polled(table, times[..n], inst)[i];
      if Falling(p, times[n]) {
        BroughtDownIsDown(p, inst(p, times[n]));
        if table[i] == p { StaysBelow(p, times[n], last); }
      }
    }
  }

  /** Any number of earlier polls changes neither what a poll at `last` returns nor which
      planes are down after it, and leaves every row still flying as it was. */
  lemma PollsAreTransparent(table: seq<Plane>, times: seq<int>, inst: Instants, last: int)
    requires forall i :: 0 <= i < |table| && table[i].status == FLYING ==> table[i].z >= 0
    requires forall i, k :: 0 <= i < |table| && 0 <= k < |times| ==> table[i].time <= times[k] <= last
    ensures Visible(Polled(table, times, inst), last) == Visible(table, last)
    ensures var a, b := ScanTable(Polled(table, times, inst), last, inst), ScanTable(table, last, inst);
      forall i :: 0 <= i < |table| ==>
        (a[i].status == FLYING <==> b[i].status == FLYING) && (a[i].status == FLYING ==> a[i] == b[i] == table[i])
  {
    hide Below, BringDown, Polled;
    var polled := Polled(table, times, inst);
    forall i | 0 <= i < |table|
      ensures polled[i] == table[i]
        || (table[i].status == FLYING && polled[i].status != FLYING && Below(table[i], last))
      ensures Falling(table[i], last) ==> Scanned(table[i], last, inst).status != FLYING
    {
      PolledRow(table, times, inst, i, last);
      BroughtDownIsDown(table[i], inst(table[i], last));
    }
    VisibleAgrees(polled, table, last);
  }

  // ------------------------------------------------------------- commands

  /** `set`: the return value and the table.  The plane is stamped with the current time
      before it is moved, so it does not move; only its steering and its stamp change. */
  function SetCommand(table: seq<Plane>, cmd: int, plane: Plane, now: int, inst: Instants): (int, seq<Plane>) {
    var p := plane.(time := now);
    if Below(p, now) then (0, Put(table, BringDown(p, inst(p, now))))
    else
      var (ok, q) := Steer(cmd, Advance(p, now));
      if ok then (PLANE_SIZE, Put(table, q)) else (-1, table)
  }

  /** For a plane in the air and on the map a command is exactly a change of steering. */
  lemma SetOnlySteers(table: seq<Plane>, cmd: int, plane: Plane, now: int, inst: Instants)
    requires plane.z >= 0 && 0 <= plane.x < MAX_LEN && 0 <= plane.y < MAX_HEIGHT
    ensures var (ok, q) := Steer(cmd, plane.(time := now));
      SetCommand(table, cmd, plane, now, inst) == if ok then (PLANE_SIZE, Put(table, q)) else (-1, table)
  {
    AdvanceNow(plane.(time := now));
    hide Below, Advance, Put, BringDown, Steer;
  }

  /** What `set` leaves in the struct it was given a pointer to. */
  function SetPlane(cmd: int, plane: Plane, now: int, inst: Instants): Plane {
    var p := plane.(time := now);
    if Below(p, now) then BringDown(p, inst(p, now)) else Steer(cmd, Advance(p, now)).1
  }

  /** The three kinds of result, each with the guard that leads to it and with what is stored. */
  lemma SetReturns(table: seq<Plane>, cmd: int, plane: Plane, now: int, inst: Instants)
    requires FitsInt(plane.heading)
    ensures var (r, after) := SetCommand(table, cmd, plane, now, inst); var q := SetPlane(cmd, plane, now, inst);
      && (r == 0 <==> plane.z < 0)
      && (r == -1 <==> plane.z >= 0 && Refused(cmd, plane))
      && (r == PLANE_SIZE <==> plane.z >= 0 && !Refused(cmd, plane))
      && after == if r == -1 then table else Put(table, q)
  {
    var p := plane.(time := now);
    AdvanceNow(p);
    AdvanceKeepsSteering(p, now);
    SteerRefuses(cmd, Advance(p, now));
    hide Below, Advance, Put, BringDown, Steer;
  }

  lemma AdvanceKeepsSteering(p: Plane, now: int)
    ensures var q := Advance(p, now);
      q.speed == p.speed && q.elevation == p.elevation && q.heading == p.heading
  {
    hide Travel, Wrap, Sin, Cos;
  }

  predicate OnMap(p: Plane) {
    0 <= p.x < MAX_LEN && 0 <= p.y < MAX_HEIGHT
  }

  /** The struct already says what `set` writes into it: for a plane in the air, a refused
      command and a stamp that is the current time; below ground, a plane that is already
      down, with its landing instant for a stamp and at the place where that instant puts it. */
  predicate Unchanged(cmd: int, plane: Plane, now: int, inst: Instants) {
    var instant := inst(plane.(time := now), now);
    if plane.z >= 0 then plane.time == now && OnMap(plane) && Refused(cmd, plane)
    else plane.time == instant && SetXY(plane, instant) == plane && plane.status == DownStatus(plane)
  }

  /** `set` changes its caller's struct, but for these. */
  lemma SetChangesItsArgument(cmd: int, plane: Plane, now: int, inst: Instants)
    requires FitsInt(plane.heading)
    ensures SetPlane(cmd, plane, now, inst) == plane <==> Unchanged(cmd, plane, now, inst)
    ensures plane.status == FLYING && plane.z < 0 ==> !Unchanged(cmd, plane, now, inst)
  {
    var p := plane.(time := now);
    AdvanceNow(p);
    AdvanceKeepsSteering(p, now);
    SteerRefuses(cmd, Advance(p, now));
    if plane.z >= 0 {
      SteerKeepsPlace(cmd, Advance(p, now));
      AdvanceIsOnMap(p, now);
      hide Below, Advance, BringDown, Steer;
    } else {
      hide Below, Advance, Steer, Trunc, Wrap, Sin, Cos, InZone;
    }
  }

  lemma SteerKeepsPlace(cmd: int, p: Plane)
    ensures var q := Steer(cmd, p).1; q.time == p.time && q.x == p.x && q.y == p.y
  {
    hide Signed, Unsigned;
  }

  lemma AdvanceIsOnMap(p: Plane, now: int)
    ensures OnMap(Advance(p, now)) && Advance(p, now).time == p.time
  {
    WrapIsModulo(Travel(p.x, XRate(p), now - p.time));
    WrapIsModulo(Travel(p.y, YRate(p), now - p.time));
    hide Travel, Wrap, Sin, Cos;
  }

  predicate Revives(a: seq<Plane>, b: seq<Plane>) {
    |a| <= |b| && exists i :: 0 <= i < |a| && a[i].status != FLYING && b[i].status == FLYING
  }

  /** The store already has this plane on the ground. */
  predicate IsDown(table: seq<Plane>, id: seq<byte>) {
    var i := IndexOf(table, id);
    i < |table| && table[i].status != FLYING
  }

  /** A command puts a brought-down plane back into the air exactly when the caller's copy
      is older than the landing and the command is not refused: what one client alone
      avoids, two clients of one store do not (`TwoClientsRevive`). */
  lemma SetRevivesIffStale(table: seq<Plane>, cmd: int, plane: Plane, now: int, inst: Instants)
    requires GoodIds(table) && GoodId(plane.id) && ValidPlane(plane) && plane.status == FLYING
    ensures Revives(table, SetCommand(table, cmd, plane, now, inst).1)
       <==> !Refused(cmd, plane) && IsDown(table, plane.id)
  {
    hide SetCommand, Refused, Put, IndexOf, GoodId, IsDown, Revives;
    SetOnlySteers(table, cmd, plane, now, inst);
    var p := plane.(time := now);
    SteerKeepsIdentity(cmd, p);
    SteerRefuses(cmd, p);
    assert Refused(cmd, p) <==> Refused(cmd, plane) by { RefusedAlike(cmd, p, plane); }
    PutRevivesIffDown(table, Steer(cmd, p).1);
  }

  /** Such a run with two clients: one displays the plane, the other's poll brings it down,
      and the first one's command from the old copy puts it back into the air. */
  lemma TwoClientsRevive(id: seq<byte>, inst: Instants)
    requires GoodId(id)
    ensures var p := Plane(id, 0, 0, 100, 0, 0, -10, 42, FLYING);
      var displayed := Returned([p], 1);
      var down := ScanTable(ScanTable([p], 1, inst), 1000, inst);
      && displayed == [Advance(p, 1)] && |down| == 1 && down[0].status != FLYING
      && var after := SetCommand(down, SPEED_UP, displayed[0], 1001, inst).1;
         |after| == 1 && after[0].id == id && after[0].status == FLYING && Revives(down, after)
  {
    var p := Plane(id, 0, 0, 100, 0, 0, -10, 42, FLYING);
    assert !Below(p, 1) && Below(p, 1000);
    hide Below, SetCommand, IsDown, GoodId, BringDown, IndexOf, Revives;
    var down := ScanTable(ScanTable([p], 1, inst), 1000, inst);
    BroughtDownIsDown(p, inst(p, 1000));
    AdvanceKeepsValid(p, 1);
    AdvanceKeepsSteering(p, 1);
    assert Advance(p, 1).id == id && Advance(p, 1).status == FLYING;
    assert Visible([p], 1) == Visible([], 1) + [Advance(p, 1)] by { assert [p][..0] == []; }
    ReviveOne(down, Advance(p, 1), inst);
  }

  lemma ReviveOne(down: seq<Plane>, p: Plane, inst: Instants)
    requires |down| == 1 && down[0].id == p.id && down[0].status != FLYING && GoodId(p.id)
    requires ValidPlane(p) && p.status == FLYING && p.speed == 42
    ensures var after := SetCommand(down, SPEED_UP, p, 1001, inst).1;
      |after| == 1 && after[0].id == p.id && after[0].status == FLYING && Revives(down, after)
  {
    hide Below, GoodId, BringDown, Advance;
    SetOnlySteers(down, SPEED_UP, p, 1001, inst);
    hide SetCommand;
    assert IndexOf(down, p.id) == 0;
  }

  lemma SteerKeepsIdentity(cmd: int, p: Plane)
    ensures Steer(cmd, p).1.id == p.id && Steer(cmd, p).1.status == p.status
  {
    hide Signed, Unsigned;
  }

  lemma RefusedAlike(cmd: int, p: Plane, q: Plane)
    requires p.speed == q.speed && p.elevation == q.elevation
    ensures Refused(cmd, p) <==> Refused(cmd, q)
  {
  }

  lemma PutRevivesIffDown(table: seq<Plane>, q: Plane)
    requires GoodIds(table) && GoodId(q.id) && q.status == FLYING
    ensures Revives(table, Put(table, q)) <==> IsDown(table, q.id)
    ensures !Revives(table, table)
  {
    PutEffect(table, q);
    hide Put, IndexOf, GoodId, GoodIds;
    if IsDown(table, q.id) {
      assert table[IndexOf(table, q.id)].status != FLYING && Put(table, q)[IndexOf(table, q.id)].status == FLYING;
    }
  }

  // ------------------------------------------------------------- new planes

  /** `create_plane` from eleven values of `rand()`. */
  function NewPlane(r: seq<nat>, now: int): Plane
    requires |r| == 11
  {
    Plane([r[0] % 26 + 65, r[1] % 26 + 65, r[2] % 10 + 48, r[3] % 10 + 48, r[4] % 10 + 48, r[5] % 26 + 65],
          r[6] % MAX_LEN, r[7] % MAX_HEIGHT, r[8] % 9000 + 1000, now,
          r[9] % 7 * 45, 0, r[10] % 15 * 14 + 42, FLYING)
  }

  lemma NewPlaneIsValid(r: seq<nat>, now: int)
    requires |r| == 11
    ensures var p := NewPlane(r, now); ValidPlane(p) && GoodId(p.id) && p.status == FLYING
  {
  }

  predicate Capital(c: byte) {
    'A' as int <= c as int <= 'Z' as int
  }

  predicate Digit(c: byte) {
    '0' as int <= c as int <= '9' as int
  }

  /** What a plane may be like when it is new: level, flying, between one and ten kilometres
      up, with two capitals, three digits and a capital for its id. */
  predicate CanBeNew(p: Plane, now: int) {
    && |p.id| == 6 && Capital(p.id[0]) && Capital(p.id[1])
    && Digit(p.id[2]) && Digit(p.id[3]) && Digit(p.id[4]) && Capital(p.id[5])
    && 0 <= p.x < 4000 && 0 <= p.y < 4000 && 1000 <= p.z < 10000
    && p.time == now && p.elevation == 0 && p.status == FLYING
    && 0 <= p.heading <= 270 && p.heading % 45 == 0
    && 42 <= p.speed <= 42 + 14 * 14 && (p.speed - 42) % 14 == 0
  }

  /** The draws that make this plane. */
  function DrawsOf(p: Plane): seq<nat>
    requires CanBeNew(p, p.time)
  {
    [p.id[0] as int - 65, p.id[1] as int - 65, p.id[2] as int - 48, p.id[3] as int - 48, p.id[4] as int - 48,
     p.id[5] as int - 65, p.x, p.y, p.z - 1000, p.heading / 45, (p.speed - 42) / 14]
  }

  /** New planes are exactly these: every draw makes one, and each of them can be drawn. */
  lemma NewPlanes(p: Plane, now: int)
    ensures CanBeNew(p, now) <==> exists r: seq<nat> :: |r| == 11 && NewPlane(r, now) == p
  {
    if CanBeNew(p, now) {
      NewPlaneOfDraws(p);
      assert NewPlane(DrawsOf(p), now) == p;
    }
    if r: seq<nat> :| |r| == 11 && NewPlane(r, now) == p {
      EveryDrawCanBeNew(r, now);
    }
  }

  lemma EveryDrawCanBeNew(r: seq<nat>, now: int)
    requires |r| == 11
    ensures CanBeNew(NewPlane(r, now), now)
  {
  }

  lemma NewPlaneOfDraws(p: Plane)
    requires CanBeNew(p, p.time)
    ensures |DrawsOf(p)| == 11 && NewPlane(DrawsOf(p), p.time) == p
  {
    assert NewPlane(DrawsOf(p), p.time).id == p.id;
  }

  // ------------------------------------------------------------- one plane's commands

  /** A command given between two polls: to the plane as it was displayed at `seen`. */
  datatype Round = Round(seen: int, cmd: int, now: int)

  function AfterRound(table: seq<Plane>, i: nat, round: Round, inst: Instants): seq<Plane>
    requires i < |table|
  {
    SetCommand(ScanTable(table, round.seen, inst), round.cmd, Advance(table[i], round.seen), round.now, inst).1
  }

  function AfterRounds(table: seq<Plane>, i: nat, rounds: seq<Round>, inst: Instants): (r: seq<Plane>)
    requires i < |table|
    ensures |r| >= |table|
  {
    if rounds == [] then table
    else
      var before := AfterRounds(table, i, rounds[..|rounds| - 1], inst);
      assert |ScanTable(before, rounds[|rounds| - 1].seen, inst)| == |before|;
      AfterRound(before, i, rounds[|rounds| - 1], inst)
  }

  function Commands(rounds: seq<Round>): (cmds: seq<int>)
    ensures |cmds| == |rounds|
  {
    if rounds == [] then [] else Commands(rounds[..|rounds| - 1]) + [rounds[|rounds| - 1].cmd]
  }

  /** The plane is still up whenever it is polled, so it can be displayed and commanded. */
  ghost predicate StaysUp(table: seq<Plane>, i: nat, rounds: seq<Round>, inst: Instants)
    requires i < |table|
  {
    rounds == []
    || (StaysUp(table, i, rounds[..|rounds| - 1], inst)
        && Airborne(AfterRounds(table, i, rounds[..|rounds| - 1], inst)[i], rounds[|rounds| - 1].seen))
  }

  ghost predicate Flyable(table: seq<Plane>, i: nat) {
    && GoodIds(table) && i < |table|
    && (forall j :: 0 <= j < |table| ==> ValidPlane(table[j])) && table[i].status == FLYING
  }

  /** One round leaves the displayed plane, stamped and steered, in its row. */
  lemma OneRound(table: seq<Plane>, i: nat, round: Round, inst: Instants)
    requires Flyable(table, i) && Airborne(table[i], round.seen)
    ensures var after := AfterRound(table, i, round, inst); var p := Advance(table[i], round.seen);
      && |after| == |table| && Flyable(after, i)
      && after[i] == if Refused(round.cmd, p) then table[i] else Steer(round.cmd, p.(time := round.now)).1
  {
    var scanned, p := ScanTable(table, round.seen, inst), Advance(table[i], round.seen);
    ScanKeepsRows(table, round.seen, inst);
    assert Scanned(table[i], round.seen, inst) == table[i] by { hide Below, BringDown; }
    AdvanceKeepsValid(table[i], round.seen);
    AdvanceKeepsIdentity(table[i], round.seen);
    SetOnlySteers(scanned, round.cmd, p, round.now, inst);
    SteerEffect(round.cmd, p.(time := round.now));
    SteerRefuses(round.cmd, p.(time := round.now));
    PutEffect(scanned, Steer(round.cmd, p.(time := round.now)).1);
    hide SetCommand, Advance, Below, Steer, Put, ScanTable, IndexOf, ValidAttitude;
  }

  predicate SteeredAlike(p: Plane, q: Plane) {
    p.speed == q.speed && p.elevation == q.elevation && p.heading == q.heading
  }

  lemma SteeringIsLocal(cmd: int, p: Plane, q: Plane)
    requires SteeredAlike(p, q)
    ensures Steer(cmd, p).0 == Steer(cmd, q).0 && SteeredAlike(Steer(cmd, p).1, Steer(cmd, q).1)
  {
    hide Signed, Unsigned;
  }

  /** The stored plane is steered as if the commands had followed each other at once. */
  lemma {:induction false} RoundsSteer(table: seq<Plane>, i: nat, rounds: seq<Round>, inst: Instants)
    requires i < |table| && Flyable(table, i) && StaysUp(table, i, rounds, inst)
    ensures var after := AfterRounds(table, i, rounds, inst);
      && |after| == |table| && Flyable(after, i) && after[i].id == table[i].id
      && SteeredAlike(after[i], SteerAll(table[i], Commands(rounds)))
  {
    hide Flyable, Airborne, Refused, Advance, Steer, AfterRound, ScanTable;
    if rounds != [] {
      var n := |rounds| - 1;
      var before, last := AfterRounds(table, i, rounds[..n], inst), rounds[n];
      RoundsSteer(table, i, rounds[..n], inst);
      OneRound(before, i, last, inst);
      var p := Advance(before[i], last.seen);
      RoundOfOne(before[i], last);
      assert Commands(rounds)[..n] == Commands(rounds[..n]);
      SteeringIsLocal(last.cmd, p.(time := last.now), SteerAll(table[i], Commands(rounds[..n])));
    }
  }

  /** Moving and stamping do not steer; a refused command steers nowhere. */
  lemma RoundOfOne(p: Plane, round: Round)
    ensures var q := Advance(p, round.seen);
      && q.id == p.id && SteeredAlike(q.(time := round.now), p)
      && Steer(round.cmd, q.(time := round.now)).1.id == p.id
      && (Refused(round.cmd, q) ==> SteeredAlike(Steer(round.cmd, q.(time := round.now)).1, p))
  {
    AdvanceKeepsSteering(p, round.seen);
    AdvanceKeepsIdentity(p, round.seen);
    hide Advance, Signed, Unsigned;
  }

  lemma FlyableIsFlying(table: seq<Plane>, i: nat)
    requires Flyable(table, i)
    ensures i < |table| && table[i].status == FLYING && ValidAttitude(table[i])
  {
  }

  /** After any commands given between polls, with the plane moving on from poll to poll, its
      row has the speed, elevation and heading of the start plus the net accepted commands. */
  lemma StoredSteeringIsNetCommands(table: seq<Plane>, i: nat, rounds: seq<Round>, inst: Instants)
    requires i < |table| && Flyable(table, i) && StaysUp(table, i, rounds, inst)
    ensures var p := table[i]; var a := Accepted(p, Commands(rounds));
      && |AfterRounds(table, i, rounds, inst)| == |table|
      && var q := AfterRounds(table, i, rounds, inst)[i];
         && q.id == p.id && q.status == FLYING
         && q.speed == p.speed + 14 * Net(a, SPEED_UP, SPEED_DOWN)
         && q.elevation == p.elevation + 10 * Net(a, CLIMB, DESCEND)
         && q.heading == Compass(p.heading + 45 * Net(a, TURN_LEFT, TURN_RIGHT))
  {
    hide Flyable, StaysUp, AfterRounds, SteerAll, Accepted, Net, Compass, ValidAttitude, Commands;
    RoundsSteer(table, i, rounds, inst);
    FlyableIsFlying(table, i);
    FlyableIsFlying(AfterRounds(table, i, rounds, inst), i);
    SteeringIsNetCommands(table[i], Commands(rounds));
  }

  // ------------------------------------------------------------- runs of one client

  /** The store, the counters of the client's server process, and what the client displays:
      the planes it saw last and the score it was told last. */
  datatype World = World(table: seq<Plane>, planesCount: nat, crashed: nat, landed: nat,
                         snapshot: seq<Plane>, shownCrashed: int, shownLanded: int)

  /** One turn of the client's main loop polls and asks for both scores; a command goes to a
      plane of the last poll. */
  datatype Op =
    | Poll(now: int)
    | AskCrashed(now: int)
    | AskLanded(now: int)
    | Command(cmd: int, index: nat, now: int)
    | Create(r: seq<nat>, now: int)

  function Act(w: World, op: Op, inst: Instants): World
    requires op.Create? ==> |op.r| == 11
    requires op.Command? ==> op.index < |w.snapshot|
  {
    match op
    case Poll(now) =>
      var seen := Returned(w.table, now);
      w.(table := ScanTable(w.table, now, inst), snapshot := seen, planesCount := |seen|,
         crashed := CountStatus(w.table, CRASHED), landed := CountStatus(w.table, LANDED))
    case AskCrashed(_) => w.(shownCrashed := w.crashed)
    case AskLanded(_) => w.(shownLanded := w.landed)
    case Command(cmd, index, now) =>
      w.(table := SetCommand(w.table, cmd, w.snapshot[index], now, inst).1)
    case Create(r, now) =>
      if w.planesCount == MAX_PLANES then w else w.(table := Put(w.table, NewPlane(r, now)))
  }

  /** Commands name a plane on display; a new plane's id is new. */
  ghost predicate Legal(w: World, op: Op) {
    match op
    case Command(_, index, _) => index < |w.snapshot|
    case Create(r, now) => |r| == 11 && forall i :: 0 <= i < |w.table| ==> w.table[i].id != NewPlane(r, now).id
    case _ => true
  }

  ghost predicate LegalRun(w: World, ops: seq<Op>, inst: Instants)
    decreases |ops|
  {
    ops == [] || (Legal(w, ops[0]) && LegalRun(Act(w, ops[0], inst), ops[1..], inst))
  }

  function Run(w: World, ops: seq<Op>, inst: Instants): World
    requires LegalRun(w, ops, inst)
    decreases |ops|
  {
    if ops == [] then w else Run(Act(w, ops[0], inst), ops[1..], inst)
  }

  ghost predicate RowOfSnapshot(table: seq<Plane>, p: Plane) {
    && ValidPlane(p) && p.status == FLYING
    && exists i :: 0 <= i < |table| && table[i].id == p.id && table[i].status == FLYING
  }

  ghost predicate Inv(w: World) {
    && GoodIds(w.table)
    && (forall i :: 0 <= i < |w.table| ==> ValidPlane(w.table[i]))
    && (forall i :: 0 <= i < |w.snapshot| ==> RowOfSnapshot(w.table, w.snapshot[i]))
    && w.shownCrashed <= w.crashed <= CountStatus(w.table, CRASHED)
    && w.shownLanded <= w.landed <= CountStatus(w.table, LANDED)
  }

  /** Neither what the client shows nor what it will be told next goes back. */
  ghost predicate ScoresGrow(w: World, v: World) {
    && w.shownCrashed <= v.shownCrashed && w.shownLanded <= v.shownLanded
    && w.crashed <= v.crashed && w.landed <= v.landed
  }

  /** Rows stay where they are, keep their ids, and once down never change again. */
  ghost predicate KeepsDown(a: seq<Plane>, b: seq<Plane>) {
    && |a| <= |b|
    && forall i :: 0 <= i < |a| ==> b[i].id == a[i].id && (a[i].status != FLYING ==> b[i] == a[i])
  }

  lemma {:induction false} MoreDown(a: seq<Plane>, b: seq<Plane>)
    requires KeepsDown(a, b)
    ensures CountStatus(a, CRASHED) <= CountStatus(b, CRASHED) && CountStatus(a, LANDED) <= CountStatus(b, LANDED)
  {
    if |b| > |a| {
      MoreDown(a, b[..|b| - 1]);
    } else if a != [] {
      MoreDown(a[..|a| - 1], b[..|b| - 1]);
    }
  }

  lemma {:induction false} VisibleOnes(table: seq<Plane>, now: int, k: nat)
    requires k < |Visible(table, now)|
    ensures exists i :: 0 <= i < |table| && Airborne(table[i], now) && Visible(table, now)[k] == Advance(table[i], now)
  {
    hide Airborne, Advance;
    var n := |table| - 1;
    if k < |Visible(table[..n], now)| {
      VisibleOnes(table[..n], now, k);
      var i :| 0 <= i < n && Airborne(table[..n][i], now) && Visible(table[..n], now)[k] == Advance(table[..n][i], now);
      assert table[i] == table[..n][i];
    } else {
      assert Visible(table, now)[k] == Advance(table[n], now);
    }
  }

  const NEW_GAME: World := World([], 0, 0, 0, [], 0, 0)

  lemma NewGameInv()
    ensures Inv(NEW_GAME)
  {
  }

  lemma ScanKeepsRows(table: seq<Plane>, now: int, inst: Instants)
    requires GoodIds(table) && forall i :: 0 <= i < |table| ==> ValidPlane(table[i])
    ensures var r := ScanTable(table, now, inst);
      GoodIds(r) && KeepsDown(table, r) && forall i :: 0 <= i < |table| ==> ValidPlane(r[i])
  {
    hide ValidPlane, GoodId, Scanned;
    forall i | 0 <= i < |table|
      ensures var q := Scanned(table[i], now, inst);
        q.id == table[i].id && ValidPlane(q) && (table[i].status != FLYING ==> q == table[i])
    {
      ScannedRow(table[i], now, inst);
    }
  }

  lemma ScanShowsFlying(table: seq<Plane>, now: int, inst: Instants, k: nat)
    requires (forall i :: 0 <= i < |table| ==> ValidPlane(table[i])) && k < |Visible(table, now)|
    ensures RowOfSnapshot(ScanTable(table, now, inst), Visible(table, now)[k])
  {
    hide Below, Advance, ValidPlane, Scanned, Visible;
    VisibleOnes(table, now, k);
    var i :| 0 <= i < |table| && Airborne(table[i], now) && Visible(table, now)[k] == Advance(table[i], now);
    AdvanceKeepsValid(table[i], now);
    AdvanceKeepsIdentity(table[i], now);
    ScannedRow(table[i], now, inst);
    assert ScanTable(table, now, inst)[i] == table[i];
  }

  lemma PollKeepsInv(w: World, now: int, inst: Instants)
    requires Inv(w)
    ensures var v := Act(w, Poll(now), inst);
      && Inv(v) && KeepsDown(w.table, v.table)
      && v.crashed == CountStatus(w.table, CRASHED) && v.landed == CountStatus(w.table, LANDED)
  {
    hide ValidPlane, GoodIds, RowOfSnapshot, Visible, CountStatus, KeepsDown, ScanTable;
    var v := Act(w, Poll(now), inst);
    ScanKeepsRows(w.table, now, inst);
    forall k | 0 <= k < |v.snapshot| ensures RowOfSnapshot(v.table, v.snapshot[k]) {
      ScanShowsFlying(w.table, now, inst, k);
    }
    MoreDown(w.table, v.table);
  }

  lemma AdvanceKeepsIdentity(p: Plane, now: int)
    ensures Advance(p, now).id == p.id && Advance(p, now).status == p.status
  {
  }

  lemma ScannedRow(p: Plane, now: int, inst: Instants)
    requires ValidPlane(p)
    ensures var q := Scanned(p, now, inst);
      q.id == p.id && ValidPlane(q) && (p.status != FLYING || Airborne(p, now) ==> q == p)
  {
    hide Below, BringDown, ValidPlane;
    BringDownKeepsValid(p, inst(p, now));
    BroughtDownIsDown(p, inst(p, now));
  }

  lemma PutKeepsInv(w: World, q: Plane)
    requires Inv(w) && GoodId(q.id) && ValidPlane(q) && q.status == FLYING
    requires IndexOf(w.table, q.id) < |w.table| ==> w.table[IndexOf(w.table, q.id)].status == FLYING
    ensures var v := w.(table := Put(w.table, q)); Inv(v) && KeepsDown(w.table, v.table)
  {
    hide Put, IndexOf, ValidPlane, GoodId, CountStatus;
    var v := w.(table := Put(w.table, q));
    PutEffect(w.table, q);
    forall k | 0 <= k < |v.snapshot| ensures RowOfSnapshot(v.table, v.snapshot[k]) {
      assert RowOfSnapshot(w.table, w.snapshot[k]);
      var i :| 0 <= i < |w.table| && w.table[i].id == v.snapshot[k].id && w.table[i].status == FLYING;
      assert v.table[i].id == v.snapshot[k].id && v.table[i].status == FLYING;
    }
    MoreDown(w.table, v.table);
  }

  lemma ActKeepsInv(w: World, op: Op, inst: Instants)
    requires Inv(w) && Legal(w, op)
    ensures var v := Act(w, op, inst);
      Inv(v) && KeepsDown(w.table, v.table) && ScoresGrow(w, v)
  {
    match op
    case Poll(now) => PollKeepsInv(w, now, inst);
    case AskCrashed(_) =>
    case AskLanded(_) =>
    case Command(cmd, index, now) => CommandKeepsInv(w, cmd, index, now, inst);
    case Create(r, now) =>
      NewPlaneIsValid(r, now);
      hide NewPlane, ValidPlane, CountStatus;
      if w.planesCount != MAX_PLANES { PutKeepsInv(w, NewPlane(r, now)); }
  }

  lemma CommandKeepsInv(w: World, cmd: int, index: nat, now: int, inst: Instants)
    requires Inv(w) && index < |w.snapshot|
    ensures var v := Act(w, Command(cmd, index, now), inst);
      Inv(v) && KeepsDown(w.table, v.table) && ScoresGrow(w, v)
  {
    var p := w.snapshot[index];
    assert RowOfSnapshot(w.table, p);
    SetOnlySteers(w.table, cmd, p, now, inst);
    SteerEffect(cmd, p.(time := now));
    hide SetCommand, Steer, ValidAttitude, CountStatus;
    var q := Steer(cmd, p.(time := now)).1;
    if Steer(cmd, p.(time := now)).0 { PutKeepsInv(w, q); }
  }

  /** Along every run of one client: every plane stored or displayed is valid, a plane once
      down stays as it is for ever, rows are never lost or reordered, and neither score the
      client is told ever goes back. */
  lemma {:induction false} RunIsSafe(w: World, ops: seq<Op>, inst: Instants)
    requires Inv(w) && LegalRun(w, ops, inst)
    ensures var v := Run(w, ops, inst);
      Inv(v) && KeepsDown(w.table, v.table) && ScoresGrow(w, v)
    decreases |ops|
  {
    hide Inv, Act;
    if ops != [] {
      var u := Act(w, ops[0], inst);
      ActKeepsInv(w, ops[0], inst);
      RunIsSafe(u, ops[1..], inst);
      KeepsDownTransitive(w.table, u.table, Run(w, ops, inst).table);
    }
  }

  lemma KeepsDownTransitive(a: seq<Plane>, b: seq<Plane>, c: seq<Plane>)
    requires KeepsDown(a, b) && KeepsDown(b, c)
    ensures KeepsDown(a, c)
  {
  }

  // ------------------------------------------------------------- points of a run

  /** The run up to its last operation, and that operation. */
  lemma {:induction false} RunToLast(w: World, ops: seq<Op>, inst: Instants, k: nat)
    requires LegalRun(w, ops, inst) && k < |ops|
    ensures LegalRun(w, ops[..k], inst) && LegalRun(w, ops[..k + 1], inst)
    ensures var v := Run(w, ops[..k], inst);
      Legal(v, ops[k]) && Run(w, ops[..k + 1], inst) == Act(v, ops[k], inst)
    decreases k
  {
    hide Act;
    if k > 0 {
      RunToLast(Act(w, ops[0], inst), ops[1..], inst, k - 1);
      assert ops[..k][1..] == ops[1..][..k - 1] && ops[..k + 1][1..] == ops[1..][..k];
    } else {
      assert ops[..1][1..] == [];
    }
  }

  /** The world after the first `k` operations. */
  ghost function WorldAfter(w: World, ops: seq<Op>, inst: Instants, k: nat): World
    requires LegalRun(w, ops, inst) && k <= |ops|
  {
    if k == 0 then w else RunToLast(w, ops, inst, k - 1); Run(w, ops[..k], inst)
  }

  lemma OneMoreAct(w: World, ops: seq<Op>, inst: Instants, k: nat)
    requires LegalRun(w, ops, inst) && k < |ops|
    ensures var v := WorldAfter(w, ops, inst, k);
      Legal(v, ops[k]) && WorldAfter(w, ops, inst, k + 1) == Act(v, ops[k], inst)
  {
    hide Act, Legal;
    RunToLast(w, ops, inst, k);
    if k == 0 { assert ops[..0] == []; }
  }

  lemma WholeRun(w: World, ops: seq<Op>, inst: Instants)
    requires LegalRun(w, ops, inst)
    ensures WorldAfter(w, ops, inst, |ops|) == Run(w, ops, inst)
  {
    hide Act, Legal;
    assert ops[..|ops|] == ops;
  }

  lemma {:induction false} InvAfter(w: World, ops: seq<Op>, inst: Instants, k: nat)
    requires Inv(w) && LegalRun(w, ops, inst) && k <= |ops|
    ensures Inv(WorldAfter(w, ops, inst, k))
  {
    hide Inv, Act, LegalRun, Legal, WorldAfter;
    if k == 0 {
      FirstWorld(w, ops, inst);
    } else {
      InvAfter(w, ops, inst, k - 1);
      OneMoreAct(w, ops, inst, k - 1);
      ActKeepsInv(WorldAfter(w, ops, inst, k - 1), ops[k - 1], inst);
    }
  }

  lemma FirstWorld(w: World, ops: seq<Op>, inst: Instants)
    requires LegalRun(w, ops, inst)
    ensures WorldAfter(w, ops, inst, 0) == w
  {
    hide Act, Legal;
  }

  /** Between any two points of a run the scores only grow. */
  lemma {:induction false} ScoresInOrder(w: World, ops: seq<Op>, inst: Instants, j: nat, k: nat)
    requires Inv(w) && LegalRun(w, ops, inst) && j <= k <= |ops|
    ensures ScoresGrow(WorldAfter(w, ops, inst, j), WorldAfter(w, ops, inst, k))
    decreases k
  {
    hide Inv, Act, LegalRun, Legal, WorldAfter;
    if j < k {
      ScoresInOrder(w, ops, inst, j, k - 1);
      InvAfter(w, ops, inst, k - 1);
      OneMoreAct(w, ops, inst, k - 1);
      ActKeepsInv(WorldAfter(w, ops, inst, k - 1), ops[k - 1], inst);
    }
  }

  /** No poll from the `j`-th operation on and before the `k`-th. */
  predicate NoPoll(ops: seq<Op>, j: nat, k: nat) {
    forall i :: j <= i < k && i < |ops| ==> !ops[i].Poll?
  }

  /** Until the next poll the same planes are on display. */
  lemma {:induction false} SameDisplay(w: World, ops: seq<Op>, inst: Instants, j: nat, k: nat)
    requires LegalRun(w, ops, inst) && j <= k <= |ops| && NoPoll(ops, j, k)
    ensures WorldAfter(w, ops, inst, j).snapshot == WorldAfter(w, ops, inst, k).snapshot
    decreases k
  {
    hide LegalRun, WorldAfter, Legal, SetCommand, Put, NewPlane;
    if j < k {
      SameDisplay(w, ops, inst, j, k - 1);
      OneMoreAct(w, ops, inst, k - 1);
    }
  }
}
