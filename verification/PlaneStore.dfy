/**
 The "Planes" table: the C struct as 48 bytes of memory (64-bit layout, padding zero),
 stored under the plane's six-character id.
 */
module PlaneStore {
  import opened Words
  import opened Aircraft
  import opened Seqs
  import opened Storage

  const PLANE_SIZE := 48

  /** `sto_init(&sto_db, "Planes", sizeof(struct atc_plane))`. */
  const PLANES: Database := Database(PLANE_SIZE, 64)

  // ------------------------------------------------------------- memory image

  function LongImage(x: int): (b: seq<byte>)
    ensures |b| == 8
  {
    Little(x) + Little(x / TWO32)
  }

  function OfLongImage(b: seq<byte>): int
    requires |b| == 8
  {
    Unsigned(OfLittle(b[..4])) + TWO32 * OfLittle(b[4..])
  }

  lemma LongRoundTrip(x: int)
    requires FitsLong(x)
    ensures OfLongImage(LongImage(x)) == x
  {
    var b := LongImage(x);
    assert b[..4] == Little(x) && b[4..] == Little(x / TWO32);
    OfLittleOfLittle(x);
    OfLittleOfLittle(x / TWO32);
    SignedOfUnsigned(x / TWO32);
    LowHalf(x);
    hide Little, OfLittle;
  }

  lemma LowHalf(x: int)
    ensures Unsigned(Signed(x)) + TWO32 * (x / TWO32) == x
  {
  }

  /** `struct atc_plane` in memory. */
  function Image(p: Plane): (b: seq<byte>)
    requires |p.id| == ID_LENGTH
    ensures |b| == PLANE_SIZE
  {
    p.id + Zeros(2) + Little(p.x) + Little(p.y) + Little(p.z) + Zeros(4) + LongImage(p.time)
    + Little(p.heading) + Little(p.elevation) + Little(p.speed) + Little(p.status)
  }

  function OfImage(b: seq<byte>): Plane
    requires |b| == PLANE_SIZE
  {
    Plane(b[..6], OfLittle(b[8..12]), OfLittle(b[12..16]), OfLittle(b[16..20]), OfLongImage(b[24..32]),
          OfLittle(b[32..36]), OfLittle(b[36..40]), OfLittle(b[40..44]), OfLittle(b[44..48]))
  }

  lemma ImageFields(p: Plane)
    requires |p.id| == ID_LENGTH
    ensures var b := Image(p);
      && b[..6] == p.id && b[8..12] == Little(p.x) && b[12..16] == Little(p.y) && b[16..20] == Little(p.z)
      && b[24..32] == LongImage(p.time) && b[32..36] == Little(p.heading) && b[36..40] == Little(p.elevation)
      && b[40..44] == Little(p.speed) && b[44..48] == Little(p.status)
  {
    hide Little, LongImage;
  }

  lemma LittleRoundTrip(x: int)
    requires FitsInt(x)
    ensures OfLittle(Little(x)) == x
  {
    OfLittleOfLittle(x);
    SignedOfUnsigned(x);
  }

  lemma ImageRoundTrip(p: Plane)
    requires Fits(p)
    ensures OfImage(Image(p)) == p
  {
    hide Little, OfLittle, LongImage, OfLongImage;
    ImageFields(p);
    LittleRoundTrip(p.x);
    LittleRoundTrip(p.y);
    LittleRoundTrip(p.z);
    LongRoundTrip(p.time);
    LittleRoundTrip(p.heading);
    LittleRoundTrip(p.elevation);
    LittleRoundTrip(p.speed);
    LittleRoundTrip(p.status);
    hide Image;
  }

  // ------------------------------------------------------------- keys

  /** Six characters, none of them NUL. */
  predicate GoodId(id: seq<byte>) {
    |id| == ID_LENGTH && forall i :: 0 <= i < ID_LENGTH ==> id[i] != 0
  }

  function KeyOf(id: seq<byte>): (key: seq<byte>)
    requires |id| == ID_LENGTH
    ensures |key| == KEY_SIZE
  {
    id + Zeros(KEY_SIZE - ID_LENGTH)
  }

  lemma KeyOfGoodId(id: seq<byte>, other: seq<byte>)
    requires GoodId(id) && |other| == ID_LENGTH
    ensures StrLen(KeyOf(id)) == ID_LENGTH && Canon(KeyOf(id)) == KeyOf(id)
    ensures Matches(KeyOf(other), KeyOf(id)) <==> other == id
    ensures KeyOf(other) == KeyOf(id) <==> other == id
  {
    var key := KeyOf(id);
    assert forall i :: 0 <= i < ID_LENGTH ==> key[i] == id[i];
    StrLenIs(key, ID_LENGTH);
    assert key[..ID_LENGTH] == id && KeyOf(other)[..ID_LENGTH] == other;
    if Matches(KeyOf(other), key) {
      assert KeyOf(other)[..ID_LENGTH] == key[..ID_LENGTH];
    }
  }

  // ------------------------------------------------------------- tables of planes

  ghost predicate GoodIds(table: seq<Plane>) {
    && (forall i :: 0 <= i < |table| ==> GoodId(table[i].id))
    && (forall i, j :: 0 <= i < j < |table| ==> table[i].id != table[j].id)
  }

  ghost predicate GoodTable(table: seq<Plane>) {
    GoodIds(table) && forall i :: 0 <= i < |table| ==> Fits(table[i])
  }

  function RowOf(p: Plane): Row
    requires |p.id| == ID_LENGTH
  {
    Row(KeyOf(p.id), Image(p))
  }

  ghost function Rows(table: seq<Plane>): (rows: seq<Row>)
    requires GoodTable(table)
    ensures |rows| == |table| && forall i :: 0 <= i < |table| ==> rows[i] == RowOf(table[i])
    ensures Shaped(PLANES, rows)
  {
    seq(|table|, i requires 0 <= i < |table| => RowOf(table[i]))
  }

  function IndexOf(table: seq<Plane>, id: seq<byte>): (i: nat)
    ensures i <= |table|
    ensures forall j :: 0 <= j < i ==> table[j].id != id
    ensures i < |table| ==> table[i].id == id
  {
    FirstIndex(table, (p: Plane) => p.id == id)
  }

  /** The table with this plane in the row of its id, or in a new last row. */
  function Put(table: seq<Plane>, p: Plane): seq<Plane> {
    var i := IndexOf(table, p.id);
    if i < |table| then table[i := p] else table + [p]
  }

  lemma PutEffect(table: seq<Plane>, p: Plane)
    requires GoodIds(table) && GoodId(p.id)
    ensures var r, i := Put(table, p), IndexOf(table, p.id);
      && GoodIds(r) && i < |r| && r[i] == p && |r| == (if i < |table| then |table| else |table| + 1)
      && (forall j :: 0 <= j < |table| && j != i ==> r[j] == table[j])
      && (forall j :: 0 <= j < |table| ==> r[j].id == table[j].id)
      && (forall j :: 0 <= j < |table| && table[j].id == p.id ==> j == i)
  {
    hide IndexOf, GoodId;
  }

  lemma PutKeepsGood(table: seq<Plane>, p: Plane)
    requires GoodTable(table) && Fits(p) && GoodId(p.id)
    ensures GoodTable(Put(table, p))
  {
    hide IndexOf, Fits, GoodId;
  }

  lemma PlanesIsSound()
    ensures Sound(PLANES) && PLANES.rowSize == RoundUp32(KEY_SIZE + PLANE_SIZE)
  {
  }

  /** On a table of planes `sto_set` is `Put`. */
  lemma SetIsPut(table: seq<Plane>, p: Plane)
    requires GoodTable(table) && Fits(p) && GoodId(p.id)
    ensures Sound(PLANES) && GoodTable(Put(table, p))
    ensures SetFile(PLANES, Rows(table), KeyOf(p.id), Image(p)) == Layout(PLANES, Rows(Put(table, p)))
  {
    hide Fits, GoodId, Image, Canon, Matches, KeyOf, StrLen, NoShadow, Find, IndexOf, Layout, SetFile, Upsert;
    assert |p.id| == ID_LENGTH by { GoodIdLength(p.id); }
    PutKeepsGood(table, p);
    PlanesIsSound();
    KeyOfGoodId(p.id, p.id);
    PlanesCastNoShadow(table, p.id);
    SetRefinesUpsert(PLANES, Rows(table), KeyOf(p.id), Image(p));
    UpsertIsPut(table, p);
  }

  lemma GoodIdLength(id: seq<byte>)
    requires GoodId(id)
    ensures |id| == ID_LENGTH
  {
  }

  lemma UpsertIsPut(table: seq<Plane>, p: Plane)
    requires GoodTable(table) && GoodTable(Put(table, p)) && Fits(p)
    requires Find(Rows(table), KeyOf(p.id)) == IndexOf(table, p.id)
    ensures Upsert(Rows(table), KeyOf(p.id), Image(p)) == Rows(Put(table, p))
  {
    hide Image, KeyOf, Find, IndexOf, GoodId, Zeros, Shaped;
  }

  lemma PlanesCastNoShadow(table: seq<Plane>, id: seq<byte>)
    requires GoodTable(table) && GoodId(id)
    ensures NoShadow(PLANES, Rows(table), KeyOf(id))
    ensures Find(Rows(table), KeyOf(id)) == IndexOf(table, id)
  {
    var rows, key := Rows(table), KeyOf(id);
    KeyOfGoodId(id, id);
    forall j | 0 <= j < |table|
      ensures Matches(rows[j].key, key) <==> rows[j].key == key
      ensures rows[j].key == key <==> table[j].id == id
    {
      KeyOfGoodId(id, table[j].id);
    }
    hide Fits, GoodId, Image, Canon, Matches, KeyOf, StrLen, Find, IndexOf;
  }
}
