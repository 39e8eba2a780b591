/**
 Dead reckoning and steering of one plane (`src/atcd/atcd.c`).  The sine and cosine
 tables are exact decimals, here integers scaled by 10000; conversions to `int`
 truncate toward zero and `%` is C's remainder.
 */
module Flight {
  import opened Words
  import opened Aircraft

  const SCALE := 10000
  const MAX_LEN := 4000
  const MAX_HEIGHT := 4000
  const LANDING_TOLERANCE := 500

  // enum atc_commands
  const SPEED_UP := 0
  const SPEED_DOWN := 1
  const CLIMB := 2
  const DESCEND := 3
  const TURN_RIGHT := 4
  const TURN_LEFT := 5

  // ------------------------------------------------------------- C arithmetic

  /** `(int)` of the quotient: rounds toward zero. */
  function Trunc(n: int, d: nat): int
    requires d > 0
  {
    if n >= 0 then n / d else -((-n) / d)
  }

  /** C's `%`: the sign of the dividend. */
  function Rem(a: int, m: nat): int
    requires m > 0
  {
    a - m * Trunc(a, m)
  }

  function Wrap(a: int, m: nat): int
    requires m > 0
  {
    var aux := Rem(a, m);
    if aux < 0 then m + aux else aux
  }

  lemma WrapIsModulo(a: int)
    ensures Wrap(a, MAX_LEN) == a % MAX_LEN
  {
  }

  lemma TruncNear(n: int)
    ensures -SCALE < SCALE * Trunc(n, SCALE) - n < SCALE
    ensures Trunc(n, SCALE) < 0 <==> n <= -SCALE
    ensures n % SCALE == 0 ==> SCALE * Trunc(n, SCALE) == n
  {
  }

  /** Toward zero: the sign of the number, and the whole part of its size. */
  lemma TruncTowardZero(n: int)
    ensures var q := Trunc(n, 10000);
      && (n >= 0 ==> q >= 0 && 10000 * q <= n < 10000 * q + 10000)
      && (n <= 0 ==> q <= 0 && 10000 * q - 10000 < n <= 10000 * q)
  {
  }

  // ------------------------------------------------------------- tables

  function Sin(angle: int): (s: int)
    ensures -SCALE <= s <= SCALE
    ensures angle % 90 == 0 ==> s % SCALE == 0
  {
    match angle
    case 0 => 10000
    case 45 => 7071
    case 90 => 0
    case 135 => -7071
    case 180 => -10000
    case 225 => -7071
    case 270 => 0
    case 315 => 7071
    case _ => 0
  }

  function Cos(angle: int): (c: int)
    ensures -SCALE <= c <= SCALE
    ensures angle % 90 == 0 ==> c % SCALE == 0
  {
    match angle
    case -30 => -5000
    case -20 => -3420
    case -10 => -1736
    case 0 => 0
    case 10 => 1736
    case 20 => 3420
    case 30 => 5000
    case 45 => 7071
    case 90 => 10000
    case 135 => 7071
    case 180 => 0
    case 225 => -7071
    case 270 => -10000
    case 315 => -7071
    case _ => 0
  }

  // ------------------------------------------------------------- position

  /** A coordinate after `dt` seconds at `rate` (scaled metres per second). */
  function Travel(at: int, rate: int, dt: int): int {
    Trunc(rate * dt + SCALE * at, SCALE)
  }

  function ClimbRate(p: Plane): int { Cos(p.elevation) * p.speed }
  function XRate(p: Plane): int { Cos(p.heading) * p.speed }
  function YRate(p: Plane): int { Sin(p.heading) * p.speed }

  /** `_set_plane_x_y`. */
  function SetXY(p: Plane, dt: int): Plane {
    p.(x := Wrap(Travel(p.x, XRate(p), dt), MAX_LEN), y := Wrap(Travel(p.y, YRate(p), dt), MAX_HEIGHT))
  }

  /** Where `calculate_position` finds the plane under ground. */
  predicate Below(p: Plane, now: int) {
    Travel(p.z, ClimbRate(p), now - p.time) < 0
  }

  /** The branch of `calculate_position` that keeps the plane flying; the time stamp stays. */
  function Advance(p: Plane, now: int): Plane {
    SetXY(p.(z := Travel(p.z, ClimbRate(p), now - p.time)), now - p.time)
  }

  function Airports(): seq<Airport> {
    [Airport(1000, 1000, Zeros(3)), Airport(2000, 2000, Zeros(3))]
  }

  predicate Near(p: Plane, a: Airport) {
    && a.x - LANDING_TOLERANCE < p.x < a.x + LANDING_TOLERANCE
    && a.y - LANDING_TOLERANCE < p.y < a.y + LANDING_TOLERANCE
  }

  predicate InZone(p: Plane) {
    exists i :: 0 <= i < |Airports()| && Near(p, Airports()[i])
  }

  /** `_crashed_or_landed` as coded: `_in_da_zone` is 0 inside a zone and its caller negates
      it, so a plane counts as landed when it is slow, descends at -10 and is outside. */
  function DownStatus(p: Plane): int {
    if p.elevation != -10 || p.speed > 56 || InZone(p) then CRASHED else LANDED
  }

  /** The other branch of `calculate_position`; `instant` is the computed landing time, which
      divides by a zero of the sine table and is left arbitrary. */
  function BringDown(p: Plane, instant: int): Plane {
    var q := SetXY(p.(time := instant), instant);
    q.(status := DownStatus(q))
  }

  lemma BroughtDownIsDown(p: Plane, instant: int)
    ensures BringDown(p, instant).status != FLYING
    ensures BringDown(p, instant).id == p.id
  {
  }

  /** What lands, and it is the opposite of what the comments promise: a slow plane at -10
      lands exactly when the place it comes down at is near no airport. */
  lemma LandsAwayFromAirports(p: Plane, instant: int)
    ensures var q := BringDown(p, instant);
      && q.x == (Travel(p.x, XRate(p), instant)) % MAX_LEN && q.y == (Travel(p.y, YRate(p), instant)) % MAX_HEIGHT
      && (q.status == LANDED || q.status == CRASHED)
      && (q.status == LANDED <==>
            p.elevation == -10 && p.speed <= 56 && forall i :: 0 <= i < |Airports()| ==> !Near(q, Airports()[i]))
  {
    WrapIsModulo(Travel(p.x, XRate(p), instant));
    WrapIsModulo(Travel(p.y, YRate(p), instant));
    hide Travel, Wrap, Sin, Cos;
    var q := BringDown(p, instant);
    forall i | 0 <= i < |Airports()| && Near(q, Airports()[i]) ensures InZone(q) {
    }
  }

  /** Heading 0 at lowest speed and at -10, placed so as to come down in the middle of the
      first airport, `x` metres beside it, whatever the landing instant. */
  function Approach(x: int, instant: int): Plane {
    Plane(Zeros(ID_LENGTH), (1000 + x) % MAX_LEN, (1000 - 42 * instant) % MAX_HEIGHT, 0, 0, 0, -10, 42, FLYING)
  }

  /** For every landing instant there is a perfect approach, under ground after a second,
      that is a crash, and the same one in the open is a landing. */
  lemma PerfectLandingCrashes(instant: int)
    ensures var p, q := Approach(0, instant), Approach(2000, instant);
      && Below(p, 1) && BringDown(p, instant) == p.(y := 1000, time := instant, status := CRASHED)
      && Below(q, 1) && BringDown(q, instant) == q.(y := 1000, time := instant, status := LANDED)
  {
    ComesDown(0, instant);
    ComesDown(2000, instant);
    LandsAwayFromAirports(Approach(0, instant), instant);
    LandsAwayFromAirports(Approach(2000, instant), instant);
    hide Travel, Wrap, Sin, Cos, DownStatus, InZone, Below;
    assert Near(BringDown(Approach(0, instant), instant), Airports()[0]);
  }

  lemma ComesDown(x: int, instant: int)
    ensures var p := Approach(x, instant);
      Below(p, 1) && SetXY(p.(time := instant), instant) == p.(time := instant, y := 1000)
  {
    var p := Approach(x, instant);
    assert XRate(p) == SCALE * 0 && YRate(p) == SCALE * 42;
    assert Below(p, 1) by { assert ClimbRate(p) == -1736 * 42; }
    hide Trunc, Wrap, Sin, Cos, Below;
    ExactLeg(p.x, 0, instant);
    ExactLeg(p.y, 42, instant);
    ReachesTheMiddle(instant);
  }

  lemma ReachesTheMiddle(instant: int)
    ensures ((1000 - 42 * instant) % MAX_HEIGHT + 42 * instant) % MAX_HEIGHT == 1000
  {
    ModuloTwice(1000 - 42 * instant, 42 * instant);
  }

  // ------------------------------------------------------------- where a plane gets to

  /** Metres along an axis, in ten thousandths per metre flown: to the truncated metre, and
      around a map of 4000 metres. */
  function Shifted(at: int, rate: int, metres: int): int {
    Trunc(10000 * at + rate * metres, 10000) % 4000
  }

  /** What flying for `dt` seconds means for each of the eight headings, in numbers: 90 and 270
      go along x, 0 and 180 along y, and the diagonals along both at 0.7071. */
  predicate Flown(p: Plane, x: int, y: int, dt: int) {
    var metres := p.speed * dt;
    match p.heading
    case 0 => x == p.x % 4000 && y == (p.y + metres) % 4000
    case 45 => x == Shifted(p.x, 7071, metres) && y == Shifted(p.y, 7071, metres)
    case 90 => x == (p.x + metres) % 4000 && y == p.y % 4000
    case 135 => x == Shifted(p.x, 7071, metres) && y == Shifted(p.y, -7071, metres)
    case 180 => x == p.x % 4000 && y == (p.y - metres) % 4000
    case 225 => x == Shifted(p.x, -7071, metres) && y == Shifted(p.y, -7071, metres)
    case 270 => x == (p.x - metres) % 4000 && y == p.y % 4000
    case 315 => x == Shifted(p.x, -7071, metres) && y == Shifted(p.y, 7071, metres)
    case _ => p.heading % 45 == 0 ==> x == p.x % 4000 && y == p.y % 4000
  }

  /** The altitude after `dt` seconds: 0.5, 0.342 or 0.1736 metres for each metre flown. */
  function Height(p: Plane, dt: int): int {
    var metres := p.speed * dt;
    match p.elevation
    case 30 => Trunc(10000 * p.z + 5000 * metres, 10000)
    case 20 => Trunc(10000 * p.z + 3420 * metres, 10000)
    case 10 => Trunc(10000 * p.z + 1736 * metres, 10000)
    case -10 => Trunc(10000 * p.z - 1736 * metres, 10000)
    case -20 => Trunc(10000 * p.z - 3420 * metres, 10000)
    case -30 => Trunc(10000 * p.z - 5000 * metres, 10000)
    case _ => p.z
  }

  predicate Tilted(p: Plane) {
    -30 <= p.elevation <= 30 && p.elevation % 10 == 0
  }

  lemma TravelInMetres(at: int, rate: int, speed: int, dt: int)
    ensures Travel(at, rate * speed, dt) == Trunc(10000 * at + rate * (speed * dt), 10000)
    ensures rate == 10000 ==> Travel(at, rate * speed, dt) == at + speed * dt
    ensures rate == 0 ==> Travel(at, rate * speed, dt) == at
    ensures rate == -10000 ==> Travel(at, rate * speed, dt) == at - speed * dt
  {
    assert rate * speed * dt == rate * (speed * dt);
    TruncOfMultiple(at + speed * dt);
    TruncOfMultiple(at);
    TruncOfMultiple(at - speed * dt);
    hide Trunc;
  }

  lemma PlaceInMetres(p: Plane, dt: int)
    ensures Flown(p, SetXY(p, dt).x, SetXY(p, dt).y, dt)
  {
    TravelInMetres(p.x, Cos(p.heading), p.speed, dt);
    TravelInMetres(p.y, Sin(p.heading), p.speed, dt);
    WrapIsModulo(Travel(p.x, XRate(p), dt));
    WrapIsModulo(Travel(p.y, YRate(p), dt));
    hide Wrap, Travel, Trunc;
  }

  lemma FlownAlike(p: Plane, q: Plane, x: int, y: int, dt: int)
    requires p.x == q.x && p.y == q.y && p.speed == q.speed && p.heading == q.heading
    ensures Flown(p, x, y, dt) <==> Flown(q, x, y, dt)
  {
    hide Shifted;
  }

  lemma HeightInMetres(p: Plane, dt: int)
    requires Tilted(p)
    ensures Travel(p.z, ClimbRate(p), dt) == Height(p, dt)
  {
    TravelInMetres(p.z, Cos(p.elevation), p.speed, dt);
    hide Travel, Trunc;
  }

  /** A plane in the air is moved by its heading and its elevation and otherwise unchanged; it
      is below ground when that altitude is negative. */
  lemma WhereAPlaneGetsTo(p: Plane, now: int)
    ensures var q := Advance(p, now);
      Flown(p, q.x, q.y, now - p.time) && q == p.(x := q.x, y := q.y, z := q.z)
    ensures Tilted(p) ==>
      Advance(p, now).z == Height(p, now - p.time) && (Below(p, now) <==> Height(p, now - p.time) < 0)
  {
    var dt := now - p.time;
    var up := p.(z := Travel(p.z, ClimbRate(p), dt));
    PlaceInMetres(up, dt);
    FlownAlike(up, p, SetXY(up, dt).x, SetXY(up, dt).y, dt);
    if Tilted(p) { HeightInMetres(p, dt); }
    hide Wrap, Travel, Trunc, Sin, Cos, Flown, Height;
  }

  /** A plane brought down is moved by its heading for as long as its landing instant says. */
  lemma WhereAPlaneComesDown(p: Plane, instant: int)
    ensures var q := BringDown(p, instant);
      Flown(p, q.x, q.y, instant) && q == p.(x := q.x, y := q.y, time := instant, status := q.status)
  {
    var stamped := p.(time := instant);
    PlaceInMetres(stamped, instant);
    FlownAlike(stamped, p, SetXY(stamped, instant).x, SetXY(stamped, instant).y, instant);
    hide Wrap, Travel, Sin, Cos, Flown, InZone;
  }

  /** The landing law in coordinates: inside the square of 1000 metres around (1000, 1000) or
      around (2000, 2000) every plane that comes down crashes. */
  lemma LandingLaw(p: Plane, instant: int)
    ensures var q := BringDown(p, instant);
      && Flown(p, q.x, q.y, instant)
      && (q.status == LANDED || q.status == CRASHED)
      && (q.status == LANDED <==>
            && p.elevation == -10 && p.speed <= 56
            && !(500 < q.x < 1500 && 500 < q.y < 1500)
            && !(1500 < q.x < 2500 && 1500 < q.y < 2500))
  {
    WhereAPlaneComesDown(p, instant);
    hide Wrap, Travel, Sin, Cos, Flown;
    var q := BringDown(p, instant);
    assert Airports()[0] == Airport(1000, 1000, Zeros(3)) && Airports()[1] == Airport(2000, 2000, Zeros(3));
    if Near(q, Airports()[0]) || Near(q, Airports()[1]) {
      assert InZone(q);
    }
  }

  // ------------------------------------------------------------- falling

  lemma BelowExactly(p: Plane, now: int)
    ensures Below(p, now) <==> ClimbRate(p) * (now - p.time) + SCALE * p.z <= -SCALE
  {
    TruncNear(ClimbRate(p) * (now - p.time) + SCALE * p.z);
  }

  lemma MulSplit(r: int, a: int, b: int)
    ensures r * (a + b) == r * a + r * b
  {
  }

  lemma MulSign(r: int, a: int)
    requires a >= 0
    ensures r >= 0 ==> r * a >= 0
    ensures r <= 0 ==> r * a <= 0
    ensures r >= 1 ==> r * a >= a && r * -a <= -a
  {
  }

  /** Once found below ground after its stamp, always below ground. */
  lemma StaysBelow(p: Plane, t: int, t': int)
    requires p.z >= 0 && p.time <= t <= t' && Below(p, t)
    ensures Below(p, t')
  {
    BelowExactly(p, t);
    BelowExactly(p, t');
    hide Below, ClimbRate;
    MulSign(ClimbRate(p), t - p.time);
    MulSign(ClimbRate(p), t' - t);
    MulSplit(ClimbRate(p), t - p.time, t' - t);
  }

  /** For clocks that may also run backwards the same holds exactly of planes that do not climb. */
  lemma StaysBelowIffNotClimbing(p: Plane)
    ensures (forall t, t' :: t <= t' && Below(p, t) ==> Below(p, t')) <==> ClimbRate(p) <= 0
  {
    hide Below, ClimbRate;
    if ClimbRate(p) <= 0 {
      forall t, t' | t <= t' && Below(p, t) ensures Below(p, t') {
        BelowExactly(p, t);
        BelowExactly(p, t');
        MulSign(ClimbRate(p), t' - t);
        MulSplit(ClimbRate(p), t - p.time, t' - t);
      }
    } else {
      var far := SCALE * (if p.z >= 0 then p.z + 1 else 1 - p.z);
      BelowExactly(p, p.time - far);
      BelowExactly(p, p.time + far);
      MulSign(ClimbRate(p), far);
      assert Below(p, p.time - far) && !Below(p, p.time + far);
    }
  }

  // ------------------------------------------------------------- legs

  /** A coordinate after one leg; horizontal coordinates wrap, the altitude does not. */
  function Leg(at: int, rate: int, dt: int, wraps: bool): int {
    if wraps then Wrap(Travel(at, rate, dt), MAX_LEN) else Travel(at, rate, dt)
  }

  function Legs(at: int, rate: int, dts: seq<int>, wraps: bool): int {
    if dts == [] then at else Leg(Legs(at, rate, dts[..|dts| - 1], wraps), rate, dts[|dts| - 1], wraps)
  }

  function Sum(dts: seq<int>): int {
    if dts == [] then 0 else Sum(dts[..|dts| - 1]) + dts[|dts| - 1]
  }

  /** The distance of two coordinates on the circle of 4000 metres. */
  function TorusDistance(a: int, b: int): nat {
    var d := (a - b) % MAX_LEN;
    if d <= MAX_LEN - d then d else MAX_LEN - d
  }

  lemma TorusDistanceAtMost(a: int, b: int, turns: int, n: nat)
    requires -(n as int) <= a - b + MAX_LEN * turns <= n
    ensures TorusDistance(a, b) <= n
  {
    var e := a - b + MAX_LEN * turns;
    assert e % MAX_LEN == (a - b) % MAX_LEN;
  }

  lemma LegNearExact(at: int, rate: int, dt: int, wraps: bool) returns (turns: int)
    ensures wraps || turns == 0
    ensures -SCALE < SCALE * (Leg(at, rate, dt, wraps) + MAX_LEN * turns) - (rate * dt + SCALE * at) < SCALE
  {
    TruncNear(rate * dt + SCALE * at);
    var to := Travel(at, rate, dt);
    WrapIsModulo(to);
    turns := if wraps then to / MAX_LEN else 0;
    hide Wrap, Trunc;
    assert wraps ==> Wrap(to, MAX_LEN) + MAX_LEN * turns == to;
  }

  /** Each leg truncates once, so `n` legs stay within `n` metres of exact travel. */
  lemma {:induction false} LegsNearExact(at: int, rate: int, dts: seq<int>, wraps: bool) returns (turns: int)
    ensures wraps || turns == 0
    ensures var error := SCALE * (Legs(at, rate, dts, wraps) + MAX_LEN * turns) - (rate * Sum(dts) + SCALE * at);
      && (dts == [] ==> error == 0)
      && (dts != [] ==> -SCALE * |dts| < error < SCALE * |dts|)
  {
    hide Leg;
    turns := 0;
    if dts != [] {
      var n := |dts| - 1;
      var before := LegsNearExact(at, rate, dts[..n], wraps);
      var last := LegNearExact(Legs(at, rate, dts[..n], wraps), rate, dts[n], wraps);
      MulSplit(rate, Sum(dts[..n]), dts[n]);
      turns := before + last;
    }
  }

  /** `n` legs end within `n` metres of one leg of the same total time. */
  lemma LegsNearOneLeg(at: int, rate: int, dts: seq<int>)
    requires dts != []
    ensures TorusDistance(Legs(at, rate, dts, true), Leg(at, rate, Sum(dts), true)) <= |dts|
    ensures -|dts| <= Legs(at, rate, dts, false) - Leg(at, rate, Sum(dts), false) <= |dts|
  {
    hide Leg, Legs, Sum, TorusDistance;
    var a := LegsNearExact(at, rate, dts, true);
    var b := LegNearExact(at, rate, Sum(dts), true);
    TorusDistanceAtMost(Legs(at, rate, dts, true), Leg(at, rate, Sum(dts), true), a - b, |dts|);
    var c := LegsNearExact(at, rate, dts, false);
    var d := LegNearExact(at, rate, Sum(dts), false);
  }

  lemma ExactLeg(at: int, whole: int, dt: int)
    ensures Leg(at, SCALE * whole, dt, true) == (at + whole * dt) % MAX_LEN
  {
    hide Trunc, Wrap;
    ScaledProduct(whole, dt);
    TruncOfMultiple(at + whole * dt);
    WrapIsModulo(at + whole * dt);
  }

  lemma ScaledProduct(whole: int, dt: int)
    ensures SCALE * whole * dt == SCALE * (whole * dt)
  {
  }

  lemma TruncOfMultiple(n: int)
    ensures Trunc(SCALE * n, SCALE) == n
  {
  }

  /** Without a fraction to truncate the legs add up exactly. */
  lemma {:induction false} LegsExact(at: int, rate: int, dts: seq<int>)
    requires rate % SCALE == 0 && dts != []
    ensures Legs(at, rate, dts, true) == Leg(at, rate, Sum(dts), true)
  {
    hide Leg;
    var n, whole := |dts| - 1, rate / SCALE;
    var from, dt := Legs(at, rate, dts[..n], true), dts[n];
    ExactLeg(from, whole, dt);
    ExactLeg(at, whole, Sum(dts));
    MulSplit(whole, Sum(dts[..n]), dt);
    if n > 0 {
      LegsExact(at, rate, dts[..n]);
      ExactLeg(at, whole, Sum(dts[..n]));
      ModuloTwice(at + whole * Sum(dts[..n]), whole * dt);
    }
  }

  lemma ModuloTwice(a: int, b: int)
    ensures (a % MAX_LEN + b) % MAX_LEN == (a + b) % MAX_LEN
  {
  }

  /** A plane observed and stamped again at `now`. */
  function Restamp(p: Plane, now: int): Plane {
    Advance(p, now).(time := now)
  }

  function Itinerary(p: Plane, times: seq<int>): Plane {
    if times == [] then p else Restamp(Itinerary(p, times[..|times| - 1]), times[|times| - 1])
  }

  /** Seconds between consecutive observations. */
  function Gaps(start: int, times: seq<int>): (dts: seq<int>)
    ensures |dts| == |times|
  {
    if times == [] then []
    else
      var n := |times| - 1;
      Gaps(start, times[..n]) + [times[n] - if n == 0 then start else times[n - 1]]
  }

  lemma {:induction false} GapsAddUp(start: int, times: seq<int>)
    requires times != []
    ensures Sum(Gaps(start, times)) == times[|times| - 1] - start
  {
    var n := |times| - 1;
    assert Gaps(start, times)[..n] == Gaps(start, times[..n]);
    if n > 0 { GapsAddUp(start, times[..n]); }
  }

  lemma {:induction false} ItineraryIsLegs(p: Plane, times: seq<int>)
    ensures var q, dts := Itinerary(p, times), Gaps(p.time, times);
      && q == p.(x := Legs(p.x, XRate(p), dts, true), y := Legs(p.y, YRate(p), dts, true),
                 z := Legs(p.z, ClimbRate(p), dts, false),
                 time := if times == [] then p.time else times[|times| - 1])
  {
    hide Wrap, Travel, Sin, Cos;
    if times != [] {
      var n := |times| - 1;
      ItineraryIsLegs(p, times[..n]);
      assert Gaps(p.time, times)[..n] == Gaps(p.time, times[..n]);
    }
  }

  /** Observing and re-stamping a flight `n` times on the way moves its end by at most `n`
      metres per axis, and not at all along the ground for the four main headings. */
  lemma SplittingAFlight(p: Plane, times: seq<int>)
    requires times != []
    ensures var n := |times|; var q, r := Itinerary(p, times), Restamp(p, times[n - 1]);
      && TorusDistance(q.x, r.x) <= n && TorusDistance(q.y, r.y) <= n && -n <= q.z - r.z <= n
      && q == r.(x := q.x, y := q.y, z := q.z)
      && (p.heading % 90 == 0 ==> q.x == r.x && q.y == r.y)
  {
    hide Legs, Sum, Gaps, Wrap, Travel, Itinerary, TorusDistance, Sin, Cos;
    ItineraryIsLegs(p, times);
    GapsAddUp(p.time, times);
    var dts := Gaps(p.time, times);
    LegsNearOneLeg(p.x, XRate(p), dts);
    LegsNearOneLeg(p.y, YRate(p), dts);
    LegsNearOneLeg(p.z, ClimbRate(p), dts);
    if p.heading % 90 == 0 {
      MainHeadingIsExact(p, dts);
    }
  }

  lemma MainHeadingIsExact(p: Plane, dts: seq<int>)
    requires p.heading % 90 == 0 && dts != []
    ensures Legs(p.x, XRate(p), dts, true) == Leg(p.x, XRate(p), Sum(dts), true)
    ensures Legs(p.y, YRate(p), dts, true) == Leg(p.y, YRate(p), Sum(dts), true)
  {
    WholeRate(Cos(p.heading), p.speed);
    WholeRate(Sin(p.heading), p.speed);
    LegsExact(p.x, XRate(p), dts);
    LegsExact(p.y, YRate(p), dts);
  }

  lemma WholeRate(c: int, speed: int)
    requires c % SCALE == 0
    ensures (c * speed) % SCALE == 0
  {
    var k := c / SCALE;
    assert c * speed == SCALE * (k * speed);
  }

  // ------------------------------------------------------------- valid planes

  predicate ValidAttitude(p: Plane) {
    && 42 <= p.speed <= 280 && p.speed % 14 == 0
    && 0 <= p.heading <= 315 && p.heading % 45 == 0
    && -30 <= p.elevation <= 30 && p.elevation % 10 == 0
  }

  /** What holds of every plane the program handles. */
  predicate ValidPlane(p: Plane) {
    && ValidAttitude(p)
    && 0 <= p.x < MAX_LEN && 0 <= p.y < MAX_HEIGHT
    && (p.status == FLYING ==> p.z >= 0)
    && p.status in {LANDED, CRASHED, FLYING}
  }

  lemma AdvanceKeepsValid(p: Plane, now: int)
    requires ValidPlane(p) && p.status == FLYING && !Below(p, now)
    ensures ValidPlane(Advance(p, now))
  {
    WrapIsModulo(Travel(p.x, XRate(p), now - p.time));
    WrapIsModulo(Travel(p.y, YRate(p), now - p.time));
    hide Trunc, Wrap, Sin, Cos;
  }

  lemma BringDownKeepsValid(p: Plane, instant: int)
    requires ValidPlane(p)
    ensures ValidPlane(BringDown(p, instant))
  {
    WrapIsModulo(Travel(p.x, XRate(p), instant));
    WrapIsModulo(Travel(p.y, YRate(p), instant));
    hide Travel, Wrap, Sin, Cos, InZone;
  }

  /** No time passes for a plane stamped with the current time. */
  lemma AdvanceNow(p: Plane)
    ensures Below(p, p.time) <==> p.z < 0
    ensures 0 <= p.x < MAX_LEN && 0 <= p.y < MAX_HEIGHT ==> Advance(p, p.time) == p
  {
    assert forall at: int, rate: int :: Travel(at, rate, 0) == at by { ZeroTravel(); }
    WrapIsModulo(p.x);
    WrapIsModulo(p.y);
    hide Travel, Wrap, Sin, Cos;
  }

  lemma ZeroTravel()
    ensures forall at: int, rate: int :: Travel(at, rate, 0) == at
  {
    forall at: int, rate: int ensures Travel(at, rate, 0) == at {
      assert rate * 0 == 0;
      TruncNear(SCALE * at);
    }
  }

  // ------------------------------------------------------------- steering

  /** The switch of `set`: false when the command is refused.  `heading` is unsigned in C. */
  function Steer(cmd: int, p: Plane): (bool, Plane) {
    match cmd
    case 0 => if p.speed >= 280 then (false, p) else (true, p.(speed := p.speed + 14))
    case 1 => if p.speed <= 42 then (false, p) else (true, p.(speed := p.speed - 14))
    case 2 => if p.elevation == 30 then (false, p) else (true, p.(elevation := p.elevation + 10))
    case 3 => if p.elevation == -30 then (false, p) else (true, p.(elevation := p.elevation - 10))
    case 4 => (true, p.(heading := Signed((if p.heading == 0 then 360 else p.heading) - 45)))
    case 5 => (true, p.(heading := Unsigned(p.heading + 45) % 360))
    case _ => (false, p)
  }

  /** The guards of the switch, as a caller can check them. */
  predicate Refused(cmd: int, p: Plane) {
    || cmd < SPEED_UP || cmd > TURN_LEFT
    || (cmd == SPEED_UP && p.speed >= 280)
    || (cmd == SPEED_DOWN && p.speed <= 42)
    || (cmd == CLIMB && p.elevation == 30)
    || (cmd == DESCEND && p.elevation == -30)
  }

  /** A refused command changes nothing, and every other one changes something. */
  lemma SteerRefuses(cmd: int, p: Plane)
    requires FitsInt(p.heading)
    ensures Steer(cmd, p).0 <==> !Refused(cmd, p)
    ensures Steer(cmd, p).1 == p <==> Refused(cmd, p)
  {
    if cmd == TURN_LEFT {
      assert Unsigned(p.heading + 45) % 360 != p.heading;
    }
  }

  /** +1 for the one command, -1 for its opposite. */
  function Delta(cmd: int, up: int, down: int): int {
    (if cmd == up then 1 else 0) - (if cmd == down then 1 else 0)
  }

  function Compass(degrees: int): int {
    degrees % 360
  }

  lemma SmallAngles(h: int)
    requires 0 <= h <= 360
    ensures Signed(h - 45) == h - 45 && Unsigned(h + 45) == h + 45
  {
  }

  lemma SteerEffect(cmd: int, p: Plane)
    requires ValidAttitude(p)
    ensures var (ok, q) := Steer(cmd, p);
      && ValidAttitude(q)
      && (!ok ==> q == p)
      && (ok ==>
            && q.speed == p.speed + 14 * Delta(cmd, SPEED_UP, SPEED_DOWN)
            && q.elevation == p.elevation + 10 * Delta(cmd, CLIMB, DESCEND)
            && q.heading == Compass(p.heading + 45 * Delta(cmd, TURN_LEFT, TURN_RIGHT))
            && q == p.(speed := q.speed, elevation := q.elevation, heading := q.heading))
  {
    if cmd == TURN_LEFT || cmd == TURN_RIGHT {
      TurnEffect(cmd, p);
    }
  }

  lemma TurnEffect(cmd: int, p: Plane)
    requires ValidAttitude(p) && (cmd == TURN_LEFT || cmd == TURN_RIGHT)
    ensures var q := Steer(cmd, p).1;
      && q.heading == Compass(p.heading + 45 * Delta(cmd, TURN_LEFT, TURN_RIGHT))
      && 0 <= q.heading <= 315 && q.heading % 45 == 0
  {
    SmallAngles(p.heading);
    SmallAngles(if p.heading == 0 then 360 else p.heading);
    hide Signed, Unsigned;
  }

  function SteerAll(p: Plane, cmds: seq<int>): Plane {
    if cmds == [] then p else Steer(cmds[|cmds| - 1], SteerAll(p, cmds[..|cmds| - 1])).1
  }

  /** The commands of a sequence that were not refused. */
  function Accepted(p: Plane, cmds: seq<int>): seq<int> {
    if cmds == [] then []
    else
      var n := |cmds| - 1;
      Accepted(p, cmds[..n]) + if Steer(cmds[n], SteerAll(p, cmds[..n])).0 then [cmds[n]] else []
  }

  /** How many more of the one command than of its opposite. */
  function Net(cmds: seq<int>, up: int, down: int): int {
    multiset(cmds)[up] as int - multiset(cmds)[down] as int
  }

  lemma NetNext(cmds: seq<int>, last: int, up: int, down: int)
    ensures Net(cmds + [last], up, down) == Net(cmds, up, down) + Delta(last, up, down)
  {
  }

  /** Speed, elevation and heading record exactly the net accepted commands. */
  lemma {:induction false} SteeringIsNetCommands(p: Plane, cmds: seq<int>)
    requires ValidAttitude(p)
    ensures var q, a := SteerAll(p, cmds), Accepted(p, cmds);
      && ValidAttitude(q)
      && q.speed == p.speed + 14 * Net(a, SPEED_UP, SPEED_DOWN)
      && q.elevation == p.elevation + 10 * Net(a, CLIMB, DESCEND)
      && q.heading == Compass(p.heading + 45 * Net(a, TURN_LEFT, TURN_RIGHT))
      && q == p.(speed := q.speed, elevation := q.elevation, heading := q.heading)
  {
    hide Steer, Net, ValidAttitude, Delta, Compass;
    if cmds == [] {
      NetOfNone(p);
    } else {
      var n := |cmds| - 1;
      var last, before, a := cmds[n], SteerAll(p, cmds[..n]), Accepted(p, cmds[..n]);
      SteeringIsNetCommands(p, cmds[..n]);
      SteerEffect(last, before);
      NetNext(a, last, SPEED_UP, SPEED_DOWN);
      NetNext(a, last, CLIMB, DESCEND);
      NetNext(a, last, TURN_LEFT, TURN_RIGHT);
      var h, d := p.heading + 45 * Net(a, TURN_LEFT, TURN_RIGHT), 45 * Delta(last, TURN_LEFT, TURN_RIGHT);
      CompassAdds(h, d);
      if Steer(last, before).0 {
        assert p.heading + 45 * Net(a + [last], TURN_LEFT, TURN_RIGHT) == h + d;
      } else {
        assert Accepted(p, cmds) == a;
      }
    }
  }

  lemma NetOfNone(p: Plane)
    requires ValidAttitude(p)
    ensures forall up, down :: Net([], up, down) == 0
    ensures Compass(p.heading) == p.heading
  {
  }

  lemma CompassAdds(h: int, d: int)
    ensures Compass(Compass(h) + d) == Compass(h + d)
  {
  }
}
