/**
 The simulation of `src/atcd/atcd.c` over the table file.  A plane struct that a callee
 changes through its pointer is an in-parameter and an out-parameter here.
 */
module Simulation {
  import opened Words
  import opened Aircraft
  import opened Storage
  import opened Flight
  import opened PlaneStore
  import opened Fleet

  /** Climbing or descending does not overflow an `int`. */
  predicate Tilts(cmd: int, p: Plane) {
    (cmd == CLIMB ==> FitsInt(p.elevation + 10)) && (cmd == DESCEND ==> FitsInt(p.elevation - 10))
  }

  /** The static variables of one server process, and the file they share. */
  class Atcd {
    const file: File
    var planesCount: nat
    var crashedCount: int
    var landedCount: int
    ghost var table: seq<Plane>

    ghost predicate Valid()
      reads this`table, file
    {
      Sound(PLANES) && GoodTable(table) && file.contents == Layout(PLANES, Rows(table))
    }

    lemma ValidIsGood()
      requires Valid()
      ensures GoodTable(table)
    {
      hide Layout;
    }

    /** `atc_init` on an empty file. */
    constructor (file: File)
      requires file.contents == []
      ensures Valid() && this.file == file && table == [] && planesCount == crashedCount == landedCount == 0
    {
      this.file := file;
      planesCount, crashedCount, landedCount := 0, 0, 0;
      table := [];
      PlanesIsSound();
    }

    /** `sto_set(&sto_db, plane, plane->id)`. */
    method Save(p: Plane) returns (r: int)
      requires Valid() && Fits(p) && GoodId(p.id)
      modifies this`table, file
      ensures Valid() && table == Put(old(table), p) && r == PLANE_SIZE
    {
      SetIsPut(table, p);
      hide Fits, GoodId, Image, KeyOf, Layout, Put, SetFile;
      assert |p.id| == ID_LENGTH by { GoodIdLength(p.id); }
      r := StoSet(file, PLANES, Image(p), KeyOf(p.id), Rows(table));
      table := Put(table, p);
    }

    /** `calculate_position`, with `_crashed_or_landed` for a plane found under ground. */
    method CalculatePosition(plane: Plane, now: int, inst: Instants) returns (flying: bool, moved: Plane)
      requires Valid() && Fits(plane) && GoodId(plane.id)
      modifies this`table, file
      ensures Valid() && flying == !Below(plane, now)
      ensures flying ==> moved == Advance(plane, now) && table == old(table)
      ensures Flown(plane, moved.x, moved.y, if flying then now - plane.time else inst(plane, now))
      ensures Tilted(plane) ==>
        (flying <==> Height(plane, now - plane.time) >= 0) && (flying ==> moved.z == Height(plane, now - plane.time))
      ensures !flying ==> moved == BringDown(plane, inst(plane, now)) && table == Put(old(table), moved)
    {
      WhereAPlaneGetsTo(plane, now);
      WhereAPlaneComesDown(plane, inst(plane, now));
      hide Valid, Fits, GoodId, Put, Trunc, Cos, Wrap, DownStatus, Flown, Height;
      var dt := now - plane.time;
      var aux := Trunc(Cos(plane.elevation) * plane.speed * dt + SCALE * plane.z, SCALE);
      if aux < 0 {
        var timeOfCrash := inst(plane, now);
        moved := SetXY(plane.(time := timeOfCrash), timeOfCrash);
        moved := moved.(status := DownStatus(moved));
        BringDownFits(plane, timeOfCrash);
        var r := Save(moved);
        flying := false;
      } else {
        moved := SetXY(plane.(z := aux), dt);
        flying := true;
      }
    }

    /** `set`: -1 when refused, the bytes written when applied, 0 for a plane below ground;
        `after` is the caller's struct as the call leaves it. */
    method Set(cmd: int, plane: Plane, now: int, inst: Instants) returns (r: int, after: Plane)
      requires Valid() && Fits(plane) && GoodId(plane.id) && FitsLong(now)
      requires Tilts(cmd, plane)
      modifies this`table, file
      ensures Valid() && (r, table) == SetCommand(old(table), cmd, plane, now, inst)
      ensures after == SetPlane(cmd, plane, now, inst)
    {
      hide Valid, Fits, GoodId, Put, Below, Advance, BringDown, Steer;
      var stamped := plane.(time := now);
      AdvanceNowFits(plane, now, cmd);
      var flying, ok;
      flying, after := CalculatePosition(stamped, now, inst);
      if !flying {
        return 0, after;
      }
      ok, after := Command(cmd, after);
      if !ok {
        return -1, after;
      }
      r := Save(after);
    }

    /** The switch of `set`, on the fields of the plane. */
    method Command(cmd: int, plane: Plane) returns (ok: bool, after: Plane)
      ensures (ok, after) == Steer(cmd, plane)
    {
      hide Signed, Unsigned;
      after := plane;
      if cmd == SPEED_UP {
        if plane.speed >= 280 {
          return false, after;
        }
        after := after.(speed := plane.speed + 14);
      } else if cmd == SPEED_DOWN {
        if plane.speed <= 42 {
          return false, after;
        }
        after := after.(speed := plane.speed - 14);
      } else if cmd == CLIMB {
        if plane.elevation == 30 {
          return false, after;
        }
        after := after.(elevation := plane.elevation + 10);
      } else if cmd == DESCEND {
        if plane.elevation == -30 {
          return false, after;
        }
        after := after.(elevation := plane.elevation - 10);
      } else if cmd == TURN_RIGHT {
        if plane.heading == 0 {
          after := after.(heading := 360);
        }
        after := after.(heading := Signed(after.heading - 45));
      } else if cmd == TURN_LEFT {
        after := after.(heading := Unsigned(plane.heading + 45) % 360);
      } else {
        return false, after;
      }
      ok := true;
    }

    /** `create_plane`, with the values of `rand()` as a parameter. */
    method CreatePlane(r: seq<nat>, now: int)
      requires Valid() && |r| == 11 && FitsLong(now)
      modifies this`table, file
      ensures Valid() && table == if planesCount == MAX_PLANES then old(table) else Put(old(table), NewPlane(r, now))
    {
      hide Valid, Fits, GoodId, Put, NewPlane;
      if planesCount == MAX_PLANES {
        return;
      }
      NewPlaneFits(r, now);
      var written := Save(NewPlane(r, now));
    }

    /** `sto_get(&query, &plane, NULL)`. */
    method NextPlane(query: Cursor) returns (flag: nat, plane: Plane)
      requires Valid() && query.file == file && query.db == PLANES && query.cursor <= |table|
      modifies query
      ensures Valid() && query.cursor <= |table|
      ensures old(query.cursor) < |table| ==>
        flag > 0 && plane == table[old(query.cursor)] && query.cursor == old(query.cursor) + 1
      ensures old(query.cursor) == |table| ==> flag == 0 && query.cursor == |table|
    {
      hide Layout, Image, OfImage, Fits, GoodId;
      var data;
      flag, data := query.Get((d, k) => true, Rows(table));
      if flag > 0 {
        plane := OfImage(data);
        ImageRoundTrip(table[query.cursor - 1]);
      } else {
        plane := NO_PLANE;
      }
    }

    /** The body of the loop of `get_airplanes`, for row `i` of the table as it was. */
    method Visit(plane: Plane, buffer: array<Plane>, count: nat, now: int, inst: Instants,
                 ghost was: seq<Plane>, ghost i: nat) returns (filled: nat)
      requires Valid() && GoodTable(was) && i < |was| && plane == was[i] && count <= MAX_PLANES <= buffer.Length
      requires Scan(was, i, now, inst, table, buffer[..count], crashedCount, landedCount)
      modifies this`table, this`crashedCount, this`landedCount, file, buffer
      ensures Valid() && filled <= MAX_PLANES
      ensures Scan(was, i + 1, now, inst, table, buffer[..filled], crashedCount, landedCount)
    {
      hide Valid, Fits, GoodId, GoodTable, Below, BringDown, Advance, Put, Scan;
      OneMoreScanned(was, i, now, inst, table, buffer[..count], crashedCount, landedCount);
      assert |buffer[..count]| == count;
      filled := count;
      if plane.status == FLYING {
        var flying, moved := CalculatePosition(plane, now, inst);
        if flying && count < MAX_PLANES {
          buffer[count] := moved;
          filled := count + 1;
          assert buffer[..filled] == old(buffer[..count]) + [moved];
        }
      } else if plane.status == CRASHED {
        crashedCount := crashedCount + 1;
      } else if plane.status == LANDED {
        landedCount := landedCount + 1;
      }
      assert buffer[..count] == old(buffer[..count]);
      assert buffer[..count] + [] == buffer[..count];
    }

    /** `get_airplanes`; `opens` says whether `sto_query` can open the file.  Bringing a plane
        down writes its row through a second cursor while the first is still reading; the
        scan ends all the same, because the row is there. */
    method GetAirplanes(buffer: array<Plane>, now: int, inst: Instants, opens: bool) returns (r: int)
      requires Valid() && buffer.Length >= MAX_PLANES
      modifies this, file, buffer
      ensures Valid()
      ensures opens ==>
        && table == ScanTable(old(table), now, inst)
        && 0 <= r <= buffer.Length && buffer[..r] == Returned(old(table), now) && planesCount == r
        && crashedCount == CountStatus(old(table), CRASHED) && landedCount == CountStatus(old(table), LANDED)
      ensures !opens ==>
        && r == crashedCount == landedCount == -1
        && table == old(table) && planesCount == old(planesCount) && buffer[..] == old(buffer[..])
    {
      hide Valid, GoodTable, Returned, CountStatus, ScanTable, Scan;
      if !opens {
        crashedCount, landedCount := -1, -1;
        return -1;
      }
      ghost var was := table;
      ValidIsGood();
      var count := 0;
      var query := new Cursor.Query(file, PLANES);
      crashedCount, landedCount := 0, 0;
      NothingScanned(was, now, inst);
      var flag, plane := NextPlane(query);
      ghost var i := 0;
      while flag > 0
        invariant Valid() && fresh(query) && query.file == file && query.db == PLANES
        invariant count <= MAX_PLANES
        invariant if flag > 0 then i < |was| && query.cursor == i + 1 && plane == was[i] else i == |was|
        invariant Scan(was, i, now, inst, table, buffer[..count], crashedCount, landedCount)
        decreases |was| - i
      {
        count := Visit(plane, buffer, count, now, inst, was, i);
        i := i + 1;
        ScanShape(was, i, now, inst, table, buffer[..count], crashedCount, landedCount);
        flag, plane := NextPlane(query);
      }
      AllScanned(was, now, inst, table, buffer[..count], crashedCount, landedCount);
      planesCount := count;
      r := count;
    }
  }

  /** The table when the scan has dealt with the first `i` rows. */
  ghost function Halfway(was: seq<Plane>, i: nat, now: int, inst: Instants): seq<Plane>
    requires i <= |was|
  {
    ScanTable(was, now, inst)[..i] + was[i..]
  }

  /** Everything the scan has collected from the first `i` rows. */
  ghost predicate Scan(was: seq<Plane>, i: nat, now: int, inst: Instants,
                       table: seq<Plane>, seen: seq<Plane>, crashedCount: int, landedCount: int) {
    && i <= |was| == |table| && table == Halfway(was, i, now, inst)
    && seen == Returned(was[..i], now)
    && crashedCount == CountStatus(was[..i], CRASHED) && landedCount == CountStatus(was[..i], LANDED)
  }

  lemma BringDownFits(p: Plane, instant: int)
    requires Fits(p) && FitsInt(instant)
    ensures Fits(BringDown(p, instant)) && BringDown(p, instant).id == p.id
  {
    WrapIsModulo(Travel(p.x, XRate(p), instant));
    WrapIsModulo(Travel(p.y, YRate(p), instant));
    hide Travel, Wrap, Sin, Cos, InZone;
  }

  lemma NewPlaneFits(r: seq<nat>, now: int)
    requires |r| == 11 && FitsLong(now)
    ensures Fits(NewPlane(r, now)) && GoodId(NewPlane(r, now).id)
  {
  }

  lemma AdvanceNowFits(p: Plane, now: int, cmd: int)
    requires Fits(p) && FitsLong(now) && Tilts(cmd, p)
    ensures Fits(p.(time := now))
    ensures var q := Advance(p.(time := now), now);
      Fits(q) && q.id == p.id && Fits(Steer(cmd, q).1) && Steer(cmd, q).1.id == p.id
  {
    WrapIsModulo(Travel(p.x, XRate(p), 0));
    WrapIsModulo(Travel(p.y, YRate(p), 0));
    ZeroTravel();
    hide Travel, Wrap, Sin, Cos;
  }

  lemma NothingScanned(was: seq<Plane>, now: int, inst: Instants)
    ensures Scan(was, 0, now, inst, was, [], 0, 0)
  {
  }

  /** The rows still to come are as they were. */
  lemma ScanShape(was: seq<Plane>, i: nat, now: int, inst: Instants,
                  table: seq<Plane>, seen: seq<Plane>, crashedCount: int, landedCount: int)
    requires Scan(was, i, now, inst, table, seen, crashedCount, landedCount)
    ensures i <= |table| == |was| && (i < |was| ==> table[i] == was[i])
  {
    hide ScanTable, Returned, CountStatus;
  }

  lemma AllScanned(was: seq<Plane>, now: int, inst: Instants,
                   table: seq<Plane>, seen: seq<Plane>, crashedCount: int, landedCount: int)
    requires Scan(was, |was|, now, inst, table, seen, crashedCount, landedCount)
    ensures table == ScanTable(was, now, inst) && seen == Returned(was, now)
    ensures crashedCount == CountStatus(was, CRASHED) && landedCount == CountStatus(was, LANDED)
  {
    hide Scanned, Returned, CountStatus;
    assert was[..|was|] == was;
    assert Halfway(was, |was|, now, inst) == ScanTable(was, now, inst);
  }

  lemma CountNext(was: seq<Plane>, i: nat, status: int)
    requires i < |was|
    ensures CountStatus(was[..i + 1], status)
         == CountStatus(was[..i], status) + if was[i].status == status then 1 else 0
  {
    assert was[..i + 1][..i] == was[..i];
  }

  lemma ReturnedNext(was: seq<Plane>, i: nat, now: int)
    requires i < |was|
    ensures Returned(was[..i + 1], now) == Returned(was[..i], now)
      + (if Airborne(was[i], now) && |Returned(was[..i], now)| < MAX_PLANES then [Advance(was[i], now)] else [])
  {
    hide Airborne, Advance;
    assert was[..i + 1][..i] == was[..i];
  }

  /** What dealing with one more row means for everything the scan collects. */
  lemma OneMoreScanned(was: seq<Plane>, i: nat, now: int, inst: Instants,
                       table: seq<Plane>, seen: seq<Plane>, crashedCount: int, landedCount: int)
    requires i < |was| && GoodTable(was) && Scan(was, i, now, inst, table, seen, crashedCount, landedCount)
    ensures Fits(was[i]) && GoodId(was[i].id)
    ensures var p := was[i];
      Scan(was, i + 1, now, inst,
           if Falling(p, now) then Put(table, BringDown(p, inst(p, now))) else table,
           seen + (if Airborne(p, now) && |seen| < MAX_PLANES then [Advance(p, now)] else []),
           crashedCount + (if p.status == CRASHED then 1 else 0),
           landedCount + (if p.status == LANDED then 1 else 0))
  {
    CountNext(was, i, CRASHED);
    CountNext(was, i, LANDED);
    ReturnedNext(was, i, now);
    if Falling(was[i], now) {
      PutInPlace(was, i, now, inst);
    } else {
      StayInPlace(was, i, now, inst);
    }
    HalfwayLength(was, i + 1, now, inst);
    hide Falling, Airborne, BringDown, Advance, Put, Returned, CountStatus, Halfway, GoodId, Fits;
  }

  lemma HalfwayLength(was: seq<Plane>, i: nat, now: int, inst: Instants)
    requires i <= |was|
    ensures |Halfway(was, i, now, inst)| == |was|
  {
  }

  lemma StayInPlace(was: seq<Plane>, i: nat, now: int, inst: Instants)
    requires i < |was| && !Falling(was[i], now)
    ensures Halfway(was, i + 1, now, inst) == Halfway(was, i, now, inst)
  {
    hide Falling, BringDown;
  }

  /** The row of a plane that is brought down is the row it was read from. */
  lemma PutInPlace(was: seq<Plane>, i: nat, now: int, inst: Instants)
    requires i < |was| && GoodIds(was) && Falling(was[i], now)
    ensures Halfway(was, i + 1, now, inst) == Put(Halfway(was, i, now, inst), BringDown(was[i], inst(was[i], now)))
  {
    hide Below, BringDown, GoodId, IndexOf, ScanTable, Halfway;
    var half, q := Halfway(was, i, now, inst), BringDown(was[i], inst(was[i], now));
    BroughtDownIsDown(was[i], inst(was[i], now));
    HalfwayIds(was, i, now, inst);
    assert IndexOf(half, q.id) == i;
    HalfwayNext(was, i, now, inst);
  }

  lemma HalfwayNext(was: seq<Plane>, i: nat, now: int, inst: Instants)
    requires i < |was|
    ensures |Halfway(was, i, now, inst)| == |was|
    ensures Halfway(was, i + 1, now, inst) == Halfway(was, i, now, inst)[i := Scanned(was[i], now, inst)]
  {
    hide Scanned;
  }

  lemma HalfwayIds(was: seq<Plane>, i: nat, now: int, inst: Instants)
    requires i <= |was|
    ensures |Halfway(was, i, now, inst)| == |was|
    ensures forall j :: 0 <= j < |was| ==> Halfway(was, i, now, inst)[j].id == was[j].id
  {
    hide Below, BringDown;
    forall j | 0 <= j < |was| ensures Scanned(was[j], now, inst).id == was[j].id {
      BroughtDownIsDown(was[j], inst(was[j], now));
    }
    hide Scanned;
  }
}
