/**
 The table of `src/storage/storage.c`: rows of a 16-byte key and fixed-size data in
 one file, found by linear scan.  `Layout` says which bytes a list of rows is; the
 methods of `Cursor` and `StoSet` are the program's own seeks, reads and writes.
 */
module Storage {
  import opened Words
  import opened Seqs

  const KEY_SIZE := 16

  datatype Database = Database(dataSize: nat, rowSize: nat)

  datatype Row = Row(key: seq<byte>, data: seq<byte>)

  // ------------------------------------------------------------- row size

  /** `((n) + (32) - 2) & ~((32) - 1)`. */
  function RoundUp32(n: nat): nat {
    (n + 30) / 32 * 32
  }

  /** The macro adds one less than rounding up needs, which shows for exactly one remainder. */
  lemma RoundUpIsCeiling(n: nat)
    ensures RoundUp32(n) % 32 == 0
    ensures n <= RoundUp32(n) < n + 32 <==> n % 32 != 1
    ensures n % 32 == 1 ==> RoundUp32(n) == n - 1
  {
    var q := n / 32;
    assert n == 32 * q + n % 32;
  }

  method StoInit(dataSize: nat) returns (res: int, db: Database)
    ensures res == if dataSize == 0 then -1 else 0
    ensures db == Database(dataSize, RoundUp32(16 + dataSize))
    ensures res == 0 ==> (Sound(db) <==> dataSize % 32 != 17)
  {
    db := Database(dataSize, RoundUp32(KEY_SIZE + dataSize));
    RoundUpIsCeiling(KEY_SIZE + dataSize);
    res := if dataSize == 0 then -1 else 0;
  }

  /** A slot holds a whole row. */
  predicate Sound(db: Database) {
    db.dataSize > 0 && db.rowSize >= KEY_SIZE + db.dataSize
  }

  predicate Shaped(db: Database, rows: seq<Row>) {
    forall i :: 0 <= i < |rows| ==> |rows[i].key| == KEY_SIZE && |rows[i].data| == db.dataSize
  }

  // ------------------------------------------------------------- POSIX files

  function ReadAt(file: seq<byte>, at: nat, n: nat): (b: seq<byte>)
    ensures |b| <= n
  {
    if at >= |file| then []
    else if at + n <= |file| then file[at..at + n]
    else file[at..]
  }

  /** A write past the end fills the hole with zeros. */
  function WriteAt(file: seq<byte>, at: nat, b: seq<byte>): (r: seq<byte>)
    ensures b != [] ==> |r| == if |file| < at + |b| then at + |b| else |file|
  {
    if b == [] then file
    else if |file| < at + |b| then Overwrite(file + Zeros(at + |b| - |file|), at, b)
    else Overwrite(file, at, b)
  }

  lemma WriteTwice(file: seq<byte>, at: nat, a: seq<byte>, b: seq<byte>)
    ensures WriteAt(WriteAt(file, at, a), at + |a|, b) == WriteAt(file, at, a + b)
  {
    if a == [] {
      assert a + b == b;
    } else if b == [] {
      assert a + b == a;
    } else {
      var once := WriteAt(file, at, a);
      var twice, both := WriteAt(once, at + |a|, b), WriteAt(file, at, a + b);
      assert |twice| == |both|;
      forall k | 0 <= k < |both| ensures twice[k] == both[k] {
        WrittenByte(file, at, a, k);
        WrittenByte(once, at + |a|, b, k);
        WrittenByte(file, at, a + b, k);
      }
      hide WriteAt;
      assert twice == both;
    }
  }

  lemma WrittenByte(file: seq<byte>, at: nat, b: seq<byte>, k: nat)
    requires b != []
    ensures var r := WriteAt(file, at, b);
      k < |r| ==> r[k] == if at <= k < at + |b| then b[k - at] else if k < |file| then file[k] else 0
  {
  }

  /** What a read gives, byte by byte: what is there, up to the end of the file. */
  lemma ReadByte(file: seq<byte>, at: nat, n: nat)
    ensures var b := ReadAt(file, at, n);
      && |b| == (if at >= |file| then 0 else if |file| - at < n then |file| - at else n)
      && forall k :: 0 <= k < |b| ==> b[k] == file[at + k]
  {
  }

  lemma WritePastEnd(file: seq<byte>, at: nat, b: seq<byte>)
    requires at >= |file| && b != []
    ensures WriteAt(file, at, b) == file + Zeros(at - |file|) + b
  {
  }

  lemma WriteInside(front: seq<byte>, back: seq<byte>, at: nat, b: seq<byte>)
    requires at + |b| <= |front|
    ensures WriteAt(front + back, at, b) == WriteAt(front, at, b) + back
  {
  }

  lemma WriteTail(front: seq<byte>, was: seq<byte>, b: seq<byte>)
    requires |b| == |was|
    ensures WriteAt(front + was, |front|, b) == front + b
  {
  }

  // ------------------------------------------------------------- layout

  /** Where slot `i` starts. */
  function Pos(db: Database, i: nat): nat {
    if i == 0 then 0 else Pos(db, i - 1) + db.rowSize
  }

  lemma {:induction false} PosIsProduct(db: Database, i: nat)
    ensures Pos(db, i) == i * db.rowSize
  {
    if i > 0 { PosIsProduct(db, i - 1); }
  }

  /** The file is as long as its last row: the padding of the last slot is never written. */
  function FileSize(db: Database, n: nat): nat {
    if n == 0 then 0 else Pos(db, n - 1) + KEY_SIZE + db.dataSize
  }

  /** The hole between the end of the last row and the next slot. */
  function Hole(db: Database, n: nat): (hole: seq<byte>)
    requires Sound(db)
    ensures FileSize(db, n) + |hole| == Pos(db, n)
  {
    Zeros(Pos(db, n) - FileSize(db, n))
  }

  function Layout(db: Database, rows: seq<Row>): (file: seq<byte>)
    requires Sound(db) && Shaped(db, rows)
    ensures |file| == FileSize(db, |rows|)
  {
    if rows == [] then [] else
    var n := |rows| - 1;
    Layout(db, rows[..n]) + Hole(db, n) + rows[n].key + rows[n].data
  }

  /** The length of a table file: its last row has no padding. */
  lemma FileLength(db: Database, rows: seq<Row>)
    requires Sound(db) && Shaped(db, rows)
    ensures |Layout(db, rows)| == if rows == [] then 0 else (|rows| - 1) * db.rowSize + 16 + db.dataSize
  {
    if rows != [] { PosIsProduct(db, |rows| - 1); }
    hide Layout;
  }

  lemma Regroup(a: seq<byte>, b: seq<byte>, c: seq<byte>, d: seq<byte>)
    ensures a + b + c + d == a + (b + c + d)
    ensures a + b + c + d == a + b + (c + d)
  {
  }

  lemma LayoutSplit(db: Database, init: seq<Row>, last: Row)
    requires Sound(db) && Shaped(db, init) && Shaped(db, [last])
    ensures Shaped(db, init + [last])
    ensures Layout(db, init + [last]) == Layout(db, init) + Hole(db, |init|) + last.key + last.data
    ensures Layout(db, init + [last]) == Layout(db, init) + (Hole(db, |init|) + last.key + last.data)
    ensures Layout(db, init + [last]) == Layout(db, init) + Hole(db, |init|) + (last.key + last.data)
  {
    assert (init + [last])[..|init|] == init;
    Regroup(Layout(db, init), Hole(db, |init|), last.key, last.data);
  }

  lemma ReadInside(front: seq<byte>, back: seq<byte>, at: nat, n: nat)
    requires at + n <= |front|
    ensures ReadAt(front + back, at, n) == ReadAt(front, at, n)
  {
  }

  lemma ReadMiddle(front: seq<byte>, mid: seq<byte>, back: seq<byte>)
    ensures ReadAt(front + mid + back, |front|, |mid|) == mid
  {
  }

  lemma ReadTail(front: seq<byte>, tail: seq<byte>)
    ensures ReadAt(front + tail, |front|, |tail|) == tail
  {
  }

  lemma {:induction false} RowInFile(db: Database, rows: seq<Row>, i: nat)
    requires Sound(db) && Shaped(db, rows) && i < |rows|
    ensures var file := Layout(db, rows);
      && Pos(db, i) + KEY_SIZE + db.dataSize <= |file|
      && ReadAt(file, Pos(db, i), KEY_SIZE) == rows[i].key
      && ReadAt(file, Pos(db, i) + KEY_SIZE, db.dataSize) == rows[i].data
    decreases |rows|
  {
    hide ReadAt, Layout, Pos;
    var init, last := rows[..|rows| - 1], rows[|rows| - 1];
    assert rows == init + [last];
    LayoutSplit(db, init, last);
    if i < |init| {
      RowInFile(db, init, i);
      var back := Hole(db, |init|) + last.key + last.data;
      ReadInside(Layout(db, init), back, Pos(db, i), KEY_SIZE);
      ReadInside(Layout(db, init), back, Pos(db, i) + KEY_SIZE, db.dataSize);
    } else {
      var front := Layout(db, init) + Hole(db, |init|);
      ReadMiddle(front, last.key, last.data);
      ReadTail(front + last.key, last.data);
    }
  }

  lemma EndOfFile(db: Database, rows: seq<Row>)
    requires Sound(db) && Shaped(db, rows)
    ensures ReadAt(Layout(db, rows), Pos(db, |rows|), KEY_SIZE) == []
  {
    var hole := Hole(db, |rows|);
  }

  /** Writing at the first free slot appends a row, zeros and all. */
  lemma WriteAppends(db: Database, rows: seq<Row>, row: Row)
    requires Sound(db) && Shaped(db, rows) && Shaped(db, [row])
    ensures Shaped(db, rows + [row])
    ensures WriteAt(Layout(db, rows), Pos(db, |rows|), row.key + row.data) == Layout(db, rows + [row])
  {
    LayoutSplit(db, rows, row);
    hide WriteAt, Layout;
    assert FileSize(db, |rows|) + |Hole(db, |rows|)| == Pos(db, |rows|);
    WritePastEnd(Layout(db, rows), Pos(db, |rows|), row.key + row.data);
  }

  /** Writing behind a stored key replaces that row's data and nothing else. */
  lemma {:induction false} WriteReplaces(db: Database, rows: seq<Row>, i: nat, data: seq<byte>)
    requires Sound(db) && Shaped(db, rows) && i < |rows| && |data| == db.dataSize
    ensures Shaped(db, rows[i := Row(rows[i].key, data)])
    ensures WriteAt(Layout(db, rows), Pos(db, i) + KEY_SIZE, data) == Layout(db, rows[i := Row(rows[i].key, data)])
    decreases |rows|
  {
    hide WriteAt, Layout, Pos;
    var init, last := rows[..|rows| - 1], rows[|rows| - 1];
    assert rows == init + [last];
    LayoutSplit(db, init, last);
    if i == |init| {
      assert rows[i := Row(rows[i].key, data)] == init + [Row(last.key, data)];
      LayoutSplit(db, init, Row(last.key, data));
      WriteTail(Layout(db, init) + Hole(db, |init|) + last.key, last.data, data);
    } else {
      var init' := init[i := Row(init[i].key, data)];
      assert rows[i := Row(rows[i].key, data)] == init' + [last];
      WriteReplaces(db, init, i, data);
      LayoutSplit(db, init', last);
      RowInFile(db, init, i);
      WriteInside(Layout(db, init), Hole(db, |init|) + last.key + last.data, Pos(db, i) + KEY_SIZE, data);
    }
  }

  // ------------------------------------------------------------- keys

  /** `strnlen(key, STO_KEY_SIZE)`. */
  function StrLen(key: seq<byte>): (n: nat)
    ensures n <= |key|
    ensures forall i :: 0 <= i < n ==> key[i] != 0
    ensures n < |key| ==> key[n] == 0
  {
    if key == [] || key[0] == 0 then 0 else 1 + StrLen(key[1..])
  }

  /** The key as `sto_set` stores it: the string, filled up with zeros. */
  function Canon(key: seq<byte>): (c: seq<byte>)
    requires |key| == KEY_SIZE
    ensures |c| == KEY_SIZE
  {
    key[..StrLen(key)] + Zeros(KEY_SIZE - StrLen(key))
  }

  /** `strncmp(stored, key, key_len) == 0`: the string is a prefix of the stored key. */
  predicate Matches(stored: seq<byte>, key: seq<byte>) {
    key[..StrLen(key)] <= stored
  }

  /** The stored key holds the string and zeros, whatever came behind the string's end. */
  lemma CanonIsTheString(key: seq<byte>)
    requires |key| == KEY_SIZE
    ensures var c := Canon(key);
      && |c| == 16 && StrLen(c) == StrLen(key)
      && forall i :: 0 <= i < 16 ==> c[i] == if i < StrLen(key) then key[i] else 0
  {
    var c, n := Canon(key), StrLen(key);
    assert forall i :: 0 <= i < 16 ==> c[i] == if i < n then key[i] else 0;
    StrLenIs(c, n);
  }

  lemma {:induction false} StrLenIs(s: seq<byte>, n: nat)
    requires n <= |s| && (n < |s| ==> s[n] == 0) && forall i :: 0 <= i < n ==> s[i] != 0
    ensures StrLen(s) == n
  {
    if n > 0 { StrLenIs(s[1..], n - 1); }
  }

  predicate KeyEmpty(key: seq<byte>) {
    key == Zeros(KEY_SIZE)
  }

  /** The row `sto_set` stops at, or `|rows|`. */
  function FirstMatch(db: Database, rows: seq<Row>, key: seq<byte>): (i: nat)
    requires Shaped(db, rows) && |key| == KEY_SIZE
    ensures i <= |rows|
    ensures forall j :: 0 <= j < i ==> !Matches(rows[j].key, key)
    ensures i < |rows| ==> Matches(rows[i].key, key)
  {
    FirstIndex(rows, (row: Row) => Matches(row.key, key))
  }

  /** The row with exactly this stored key, or `|rows|`. */
  function Find(rows: seq<Row>, key: seq<byte>): (i: nat)
    ensures i <= |rows|
    ensures forall j :: 0 <= j < i ==> rows[j].key != key
    ensures i < |rows| ==> rows[i].key == key
  {
    FirstIndex(rows, (row: Row) => row.key == key)
  }

  // ------------------------------------------------------------- sto_set

  /** What `sto_set` leaves in the file: it writes behind the key it stopped at, or a
      whole row at the end, and writes the key again when the one it read was all zeros. */
  function SetFile(db: Database, rows: seq<Row>, key: seq<byte>, data: seq<byte>): seq<byte>
    requires Sound(db) && Shaped(db, rows) && |key| == KEY_SIZE && |data| == db.dataSize
  {
    var i := FirstMatch(db, rows, key);
    if i == |rows| then WriteAt(Layout(db, rows), Pos(db, i), Canon(key) + data)
    else WriteAt(Layout(db, rows), Pos(db, i) + KEY_SIZE,
                 if KeyEmpty(rows[i].key) then Canon(key) + data else data)
  }

  /** The specification: replace the data of the row with this key, or append a row. */
  function Upsert(rows: seq<Row>, key: seq<byte>, data: seq<byte>): (r: seq<Row>) {
    var i := Find(rows, key);
    if i < |rows| then rows[i := Row(key, data)] else rows + [Row(key, data)]
  }

  /** No row ahead of the wanted one has a key that merely starts with the wanted key. */
  predicate NoShadow(db: Database, rows: seq<Row>, key: seq<byte>)
    requires Shaped(db, rows) && |key| == KEY_SIZE
  {
    && (StrLen(key) == 0 ==> rows == [])
    && forall j :: 0 <= j < Find(rows, Canon(key)) ==> !Matches(rows[j].key, key)
  }

  lemma CanonMatches(key: seq<byte>)
    requires |key| == KEY_SIZE
    ensures Matches(Canon(key), key)
    ensures KeyEmpty(Canon(key)) <==> StrLen(key) == 0
  {
    if StrLen(key) > 0 { assert Canon(key)[0] != 0; }
  }

  lemma MatchIsFind(db: Database, rows: seq<Row>, key: seq<byte>)
    requires Shaped(db, rows) && |key| == KEY_SIZE
    ensures FirstMatch(db, rows, key) <= Find(rows, Canon(key))
    ensures (forall j :: 0 <= j < Find(rows, Canon(key)) ==> !Matches(rows[j].key, key))
            <==> FirstMatch(db, rows, key) == Find(rows, Canon(key))
  {
    CanonMatches(key);
    hide Canon, Matches;
  }

  lemma SetRefinesUpsert(db: Database, rows: seq<Row>, key: seq<byte>, data: seq<byte>)
    requires Sound(db) && Shaped(db, rows) && |key| == KEY_SIZE && |data| == db.dataSize
    requires NoShadow(db, rows, key)
    ensures Shaped(db, Upsert(rows, Canon(key), data))
    ensures SetFile(db, rows, key, data) == Layout(db, Upsert(rows, Canon(key), data))
  {
    hide Canon, Matches, Layout, WriteAt, Pos, Find, FirstMatch, Zeros;
    CanonMatches(key);
    MatchIsFind(db, rows, key);
    var i := Find(rows, Canon(key));
    if i == |rows| {
      WriteAppends(db, rows, Row(Canon(key), data));
    } else {
      assert !KeyEmpty(rows[i].key);
      WriteReplaces(db, rows, i, data);
    }
  }

  /** Two layouts that agree hold the same data in the same slot. */
  lemma LayoutData(db: Database, rows: seq<Row>, rows': seq<Row>, i: nat)
    requires Sound(db) && Shaped(db, rows) && Shaped(db, rows') && i < |rows| && i < |rows'|
    requires Layout(db, rows) == Layout(db, rows')
    ensures rows[i].data == rows'[i].data
  {
    hide Layout, ReadAt, Pos;
    RowInFile(db, rows, i);
    RowInFile(db, rows', i);
  }

  /** `n` copies of a byte. */
  function Filled(n: nat, b: byte): (s: seq<byte>)
    ensures |s| == n && forall i :: 0 <= i < n ==> s[i] == b
  {
    seq(n, _ => b)
  }

  /** Data for which `sto_set` goes wrong when a shadowing row comes first. */
  lemma ShadowBreaks(db: Database, rows: seq<Row>, key: seq<byte>) returns (data: seq<byte>)
    requires Sound(db) && Shaped(db, rows) && |key| == KEY_SIZE && !NoShadow(db, rows, key)
    ensures |data| == db.dataSize
    ensures Shaped(db, Upsert(rows, Canon(key), data))
    ensures SetFile(db, rows, key, data) != Layout(db, Upsert(rows, Canon(key), data))
  {
    CanonMatches(key);
    MatchIsFind(db, rows, key);
    var i := FirstMatch(db, rows, key);
    if StrLen(key) == 0 && KeyEmpty(rows[0].key) {
      data := Filled(db.dataSize, 1);
      EmptyKeyBreaks(db, rows, key, data);
    } else {
      if StrLen(key) == 0 { EmptyMatchesAll(rows[0].key, key); }
      hide Layout, WriteAt, Pos, Matches, Canon;
      if StrLen(key) > 0 { MatchesNonEmpty(rows[i].key, key); }
      data := Filled(db.dataSize, if rows[i].data[0] == 0 then 1 else 0);
      ShadowedDiffers(db, rows, key, data);
    }
  }

  lemma ShadowedDiffers(db: Database, rows: seq<Row>, key: seq<byte>, data: seq<byte>)
    requires Sound(db) && Shaped(db, rows) && |key| == KEY_SIZE && |data| == db.dataSize
    requires var i := FirstMatch(db, rows, key);
      i < |rows| && i != Find(rows, Canon(key)) && !KeyEmpty(rows[i].key) && data != rows[i].data
    ensures Shaped(db, Upsert(rows, Canon(key), data))
    ensures SetFile(db, rows, key, data) != Layout(db, Upsert(rows, Canon(key), data))
  {
    hide Layout, WriteAt, Pos, Matches, Canon, Find, FirstMatch, KeyEmpty;
    var i := FirstMatch(db, rows, key);
    WriteReplaces(db, rows, i, data);
    var left, right := rows[i := Row(rows[i].key, data)], Upsert(rows, Canon(key), data);
    assert Shaped(db, right);
    if Layout(db, left) == Layout(db, right) {
      LayoutData(db, left, right, i);
    }
  }

  lemma EmptyMatchesAll(stored: seq<byte>, key: seq<byte>)
    requires |stored| == |key| == KEY_SIZE && StrLen(key) == 0
    ensures Matches(stored, key)
  {
  }

  lemma MatchesNonEmpty(stored: seq<byte>, key: seq<byte>)
    requires |stored| == |key| == KEY_SIZE && StrLen(key) > 0 && Matches(stored, key)
    ensures !KeyEmpty(stored)
  {
    assert stored[0] == key[..StrLen(key)][0] == key[0];
  }

  /** With the empty key and an empty stored key, the key is written over the data. */
  lemma EmptyKeyBreaks(db: Database, rows: seq<Row>, key: seq<byte>, data: seq<byte>)
    requires Sound(db) && Shaped(db, rows) && |key| == KEY_SIZE && rows != [] && |data| == db.dataSize
    requires StrLen(key) == 0 && KeyEmpty(rows[0].key) && data[0] == 1
    ensures Shaped(db, Upsert(rows, Canon(key), data))
    ensures SetFile(db, rows, key, data) != Layout(db, Upsert(rows, Canon(key), data))
  {
    EmptyMatchesAll(rows[0].key, key);
    CanonMatches(key);
    assert FirstMatch(db, rows, key) == 0 && Find(rows, Canon(key)) == 0;
    hide Find, FirstMatch, StrLen, Layout, WriteAt, Canon;
    var rows' := Upsert(rows, Canon(key), data);
    FirstDataByte(db, rows);
    FirstDataByte(db, rows');
    WrittenByte(Layout(db, rows), KEY_SIZE, Canon(key) + data, KEY_SIZE);
  }

  lemma FirstDataByte(db: Database, rows: seq<Row>)
    requires Sound(db) && Shaped(db, rows) && rows != []
    ensures |Layout(db, rows)| > KEY_SIZE && Layout(db, rows)[KEY_SIZE] == rows[0].data[0]
  {
    RowInFile(db, rows, 0);
    assert Pos(db, 0) == 0;
    hide Layout;
    assert ReadAt(Layout(db, rows), KEY_SIZE, db.dataSize)[0] == rows[0].data[0];
  }

  /** `sto_set` is insertion-ordered map update for all data if and only if no earlier
      key merely starts with the given one (and the empty key only starts a table). */
  lemma SetIsUpsertIffNoShadow(db: Database, rows: seq<Row>, key: seq<byte>)
    requires Sound(db) && Shaped(db, rows) && |key| == KEY_SIZE
    ensures NoShadow(db, rows, key) <==>
      (forall data | |data| == db.dataSize ::
         && Shaped(db, Upsert(rows, Canon(key), data))
         && SetFile(db, rows, key, data) == Layout(db, Upsert(rows, Canon(key), data)))
  {
    if NoShadow(db, rows, key) {
      forall data | |data| == db.dataSize
        ensures Shaped(db, Upsert(rows, Canon(key), data))
        ensures SetFile(db, rows, key, data) == Layout(db, Upsert(rows, Canon(key), data))
      {
        SetRefinesUpsert(db, rows, key, data);
      }
    } else {
      var data := ShadowBreaks(db, rows, key);
    }
  }

  // ------------------------------------------------------------- tables as maps

  predicate DistinctKeys(rows: seq<Row>) {
    forall i, j :: 0 <= i < j < |rows| ==> rows[i].key != rows[j].key
  }

  /** Upsert changes one key's data, keeps every other row and the order of insertion,
      and never makes a second row for a key. */
  lemma UpsertIsMapUpdate(rows: seq<Row>, key: seq<byte>, data: seq<byte>)
    requires DistinctKeys(rows)
    ensures var r := Upsert(rows, key, data);
      && DistinctKeys(r) && |rows| <= |r| <= |rows| + 1
      && Find(r, key) < |r| && r[Find(r, key)].data == data
      && (forall i :: 0 <= i < |rows| ==> r[i].key == rows[i].key && (rows[i].key != key ==> r[i] == rows[i]))
      && (|r| == |rows| + 1 <==> forall i :: 0 <= i < |rows| ==> rows[i].key != key)
  {
    hide Find;
    var r := Upsert(rows, key, data);
    var i := Find(rows, key);
    assert r[i] == Row(key, data);
  }

  /** When the slot is one byte short, the next row's key is written over the last data byte. */
  lemma ShortSlotOverwrites(dataSize: nat, key: seq<byte>, data: seq<byte>, key2: seq<byte>, data2: seq<byte>)
    requires dataSize % 32 == 17 && |key| == |key2| == KEY_SIZE && |data| == |data2| == dataSize
    requires key2[0] != data[dataSize - 1]
    ensures var rowSize := RoundUp32(KEY_SIZE + dataSize);
      ReadAt(WriteAt(WriteAt([], 0, key + data), rowSize, key2 + data2), KEY_SIZE, dataSize) != data
  {
    RoundUpIsCeiling(KEY_SIZE + dataSize);
    var rowSize := RoundUp32(KEY_SIZE + dataSize);
    var once := WriteAt([], 0, key + data);
    var twice := WriteAt(once, rowSize, key2 + data2);
    WrittenByte(once, rowSize, key2 + data2, rowSize);
    assert twice[rowSize] == key2[0];
    assert ReadAt(twice, KEY_SIZE, dataSize)[dataSize - 1] == twice[rowSize];
  }

  // ------------------------------------------------------------- the program

  class File {
    var contents: seq<byte>

    constructor ()
      ensures contents == []
    {
      contents := [];
    }
  }

  /** `struct sto_cursor`, with the kernel's offset of its descriptor. */
  class Cursor {
    const file: File
    const db: Database
    var cursor: nat
    var offset: nat

    /** `sto_query`. */
    constructor Query(file: File, db: Database)
      ensures this.file == file && this.db == db && cursor == 0 && offset == 0
    {
      this.file, this.db, cursor, offset := file, db, 0, 0;
    }

    method Read(n: nat) returns (b: seq<byte>)
      modifies this`offset
      ensures b == ReadAt(file.contents, old(offset), n) && offset == old(offset) + |b|
    {
      b := ReadAt(file.contents, offset, n);
      offset := offset + |b|;
    }

    method Write(b: seq<byte>)
      modifies this`offset, file
      ensures file.contents == WriteAt(old(file.contents), old(offset), b) && offset == old(offset) + |b|
    {
      file.contents := WriteAt(file.contents, offset, b);
      offset := offset + |b|;
    }

    /** `_fetch_next_record`: seek to the cursor's slot and read its key, and its data when
        a buffer is given; 0 and cleared buffers at the end of the file. */
    method FetchNextRecord(withData: bool, ghost rows: seq<Row>) returns (res: nat, key: seq<byte>, data: seq<byte>)
      requires Sound(db) && Shaped(db, rows) && file.contents == Layout(db, rows) && cursor <= |rows|
      modifies this
      ensures old(cursor) == |rows| ==>
        && res == 0 && KeyEmpty(key) && data == Zeros(db.dataSize)
        && cursor == old(cursor) && offset == Pos(db, |rows|)
      ensures old(cursor) < |rows| ==>
        && res > 0 && key == rows[old(cursor)].key
        && (withData ==> data == rows[old(cursor)].data && res == db.dataSize)
        && cursor == old(cursor) + 1 && (!withData ==> offset == Pos(db, old(cursor)) + KEY_SIZE)
    {
      hide Layout, ReadAt, Pos;
      PosIsProduct(db, cursor);
      offset := cursor * db.rowSize;
      if cursor < |rows| {
        RowInFile(db, rows, cursor);
      } else {
        EndOfFile(db, rows);
      }
      key := Read(KEY_SIZE);
      if |key| == 0 {
        return 0, Zeros(KEY_SIZE), Zeros(db.dataSize);
      }
      res := |key|;
      data := [];
      if withData {
        data := Read(db.dataSize);
        res := |data|;
      }
      cursor := cursor + 1;
    }

    /** `sto_get`: the next row the filter accepts. */
    method Get(filter: (seq<byte>, seq<byte>) -> bool, ghost rows: seq<Row>) returns (res: nat, data: seq<byte>)
      requires Sound(db) && Shaped(db, rows) && file.contents == Layout(db, rows) && cursor <= |rows|
      modifies this
      ensures old(cursor) <= cursor <= |rows|
      ensures res == 0 ==>
        cursor == |rows| && forall j :: old(cursor) <= j < |rows| ==> !filter(rows[j].data, rows[j].key)
      ensures res > 0 ==>
        && old(cursor) < cursor && data == rows[cursor - 1].data && filter(data, rows[cursor - 1].key)
        && res == db.dataSize && forall j :: old(cursor) <= j < cursor - 1 ==> !filter(rows[j].data, rows[j].key)
    {
      hide Layout, Pos;
      var key;
      res, key, data := FetchNextRecord(true, rows);
      while res != 0
        invariant old(cursor) <= cursor <= |rows|
        invariant res == 0 ==>
          cursor == |rows| && forall j :: old(cursor) <= j < |rows| ==> !filter(rows[j].data, rows[j].key)
        invariant res > 0 ==>
          && old(cursor) < cursor && data == rows[cursor - 1].data && key == rows[cursor - 1].key
          && res == db.dataSize && forall j :: old(cursor) <= j < cursor - 1 ==> !filter(rows[j].data, rows[j].key)
        decreases |rows| - cursor, res
      {
        if filter(data, key) {
          return;
        }
        res, key, data := FetchNextRecord(true, rows);
      }
    }
  }

  /** `sto_set` with no other process at the file. */
  method StoSet(file: File, db: Database, data: seq<byte>, key: seq<byte>, ghost rows: seq<Row>) returns (res: nat)
    requires Sound(db) && Shaped(db, rows) && file.contents == Layout(db, rows)
    requires |key| == KEY_SIZE && |data| == db.dataSize
    modifies file
    ensures file.contents == SetFile(db, rows, key, data)
    ensures res == db.dataSize
  {
    hide Layout, Pos, WriteAt, Matches, Canon, FirstMatch;
    var q := new Cursor.Query(file, db);
    var r, tmpKey, none := q.FetchNextRecord(false, rows);
    while r != 0
      invariant file.contents == Layout(db, rows) && q.cursor <= |rows|
      invariant r == 0 ==> q.cursor == |rows| && KeyEmpty(tmpKey) && q.offset == Pos(db, |rows|)
      invariant r == 0 ==> forall j :: 0 <= j < |rows| ==> !Matches(rows[j].key, key)
      invariant r > 0 ==>
        q.cursor > 0 && tmpKey == rows[q.cursor - 1].key && q.offset == Pos(db, q.cursor - 1) + KEY_SIZE
      invariant r > 0 ==> forall j :: 0 <= j < q.cursor - 1 ==> !Matches(rows[j].key, key)
      decreases |rows| - q.cursor, r
    {
      if Matches(tmpKey, key) {
        break;
      }
      r, tmpKey, none := q.FetchNextRecord(false, rows);
    }
    if r == 0 {
      assert FirstMatch(db, rows, key) == |rows|;
    } else {
      assert FirstMatch(db, rows, key) == q.cursor - 1;
    }
    if KeyEmpty(tmpKey) {
      q.Write(Canon(key));
      WriteTwice(Layout(db, rows), q.offset - KEY_SIZE, Canon(key), data);
    }
    q.Write(data);
    res := |data|;
  }
}
