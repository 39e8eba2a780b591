/**
 Several server processes and clients saving planes at once: `StoreLock` for the calls of
 `sto_set` that `src/atcd/atcd.c` makes.
 */
module PlaneLock {
  import opened Words
  import opened Aircraft
  import opened Storage
  import opened PlaneStore
  import opened StoreLock

  /** `sto_set(&sto_db, plane, plane->id)`. */
  function SaveCall(p: Plane, stack: seq<byte>): Call
    requires |p.id| == ID_LENGTH
  {
    Call(KeyOf(p.id), Image(p), stack)
  }

  /** What is on the stack of each call. */
  predicate Stacks(stacks: seq<seq<byte>>, n: nat) {
    |stacks| == n && forall i :: 0 <= i < n ==> |stacks[i]| == KEY_SIZE
  }

  ghost predicate Savable(planes: seq<Plane>) {
    forall i :: 0 <= i < |planes| ==> Fits(planes[i]) && GoodId(planes[i].id)
  }

  ghost function SaveCalls(planes: seq<Plane>, stacks: seq<seq<byte>>): (calls: seq<Call>)
    requires Savable(planes) && Stacks(stacks, |planes|)
    ensures |calls| == |planes| && KeySizes(calls)
    ensures forall i :: 0 <= i < |calls| ==> |planes[i].id| == ID_LENGTH && calls[i] == SaveCall(planes[i], stacks[i])
  {
    seq(|planes|, i requires 0 <= i < |planes| && |planes[i].id| == ID_LENGTH => SaveCall(planes[i], stacks[i]))
  }

  /** The planes of `order` put into the table one after the other. */
  function PutAll(table: seq<Plane>, planes: seq<Plane>, order: seq<nat>): seq<Plane>
    requires forall k :: 0 <= k < |order| ==> order[k] < |planes|
  {
    if order == [] then table
    else Put(PutAll(table, planes, order[..|order| - 1]), planes[order[|order| - 1]])
  }

  /** The keys in use: those of the table and those of the planes being saved. */
  ghost function Names(table: seq<Plane>, planes: seq<Plane>): set<seq<byte>>
    requires GoodTable(table) && Savable(planes)
  {
    (set i | 0 <= i < |table| && |table[i].id| == ID_LENGTH :: KeyOf(table[i].id))
    + (set i | 0 <= i < |planes| && |planes[i].id| == ID_LENGTH :: KeyOf(planes[i].id))
  }

  lemma NameIsKey(table: seq<Plane>, planes: seq<Plane>, name: seq<byte>) returns (id: seq<byte>)
    requires GoodTable(table) && Savable(planes) && name in Names(table, planes)
    ensures GoodId(id) && |id| == ID_LENGTH && name == KeyOf(id)
  {
    hide KeyOf, GoodId;
    if i :| 0 <= i < |table| && |table[i].id| == ID_LENGTH && name == KeyOf(table[i].id) {
      id := table[i].id;
    } else {
      var j :| 0 <= j < |planes| && |planes[j].id| == ID_LENGTH && name == KeyOf(planes[j].id);
      id := planes[j].id;
    }
  }

  lemma RowsAreKnown(table: seq<Plane>, planes: seq<Plane>)
    requires GoodTable(table) && Savable(planes)
    ensures Known(PLANES, Names(table, planes), Rows(table))
  {
    var rows := Rows(table);
    forall i, j | 0 <= i < j < |rows| ensures rows[i].key != rows[j].key {
      KeyOfGoodId(table[i].id, table[j].id);
    }
    hide KeyOf, GoodId, Image;
    forall k | 0 <= k < |rows| ensures rows[k].key in Names(table, planes) {
      assert |table[k].id| == ID_LENGTH;
      assert rows[k].key == KeyOf(table[k].id);
    }
  }

  /** The keys of planes are names in the sense of `StoreLock`. */
  lemma PlaneCallsAreSensible(table: seq<Plane>, planes: seq<Plane>, stacks: seq<seq<byte>>)
    requires GoodTable(table) && Savable(planes) && Stacks(stacks, |planes|)
    ensures Sensible(PLANES, Names(table, planes), Rows(table), SaveCalls(planes, stacks))
  {
    hide KeyOf, GoodId, Image, Canon, StrLen, Matches, Names, Fits, Rows, GoodTable, Known;
    var names, calls := Names(table, planes), SaveCalls(planes, stacks);
    PlanesIsSound();
    RowsAreKnown(table, planes);
    forall i | 0 <= i < |calls|
      ensures StrLen(calls[i].key) > 0 && Canon(calls[i].key) == calls[i].key && calls[i].key in names
    {
      KeyOfGoodId(planes[i].id, planes[i].id);
      KeyIsName(table, planes, i);
    }
    forall i, k | 0 <= i < |calls| && k in names && Matches(k, calls[i].key) ensures k == Canon(calls[i].key) {
      var id := NameIsKey(table, planes, k);
      KeyOfGoodId(planes[i].id, id);
    }
  }

  lemma KeyIsName(table: seq<Plane>, planes: seq<Plane>, i: nat)
    requires GoodTable(table) && Savable(planes) && i < |planes|
    ensures |planes[i].id| == ID_LENGTH && KeyOf(planes[i].id) in Names(table, planes)
  {
    assert |planes[i].id| == ID_LENGTH;
    hide KeyOf, GoodTable;
  }

  lemma {:induction false} PutsMakeTheFile(table: seq<Plane>, planes: seq<Plane>, stacks: seq<seq<byte>>,
                                           order: seq<nat>)
    requires GoodTable(table) && Savable(planes) && Stacks(stacks, |planes|)
    requires forall k :: 0 <= k < |order| ==> order[k] < |planes|
    ensures GoodTable(PutAll(table, planes, order)) && Sound(PLANES)
    ensures SetAll(PLANES, Layout(PLANES, Rows(table)), SaveCalls(planes, stacks), order)
         == Layout(PLANES, Rows(PutAll(table, planes, order)))
  {
    hide Put, Layout, SetAlone, KeyOf, Image, Rows, GoodTable, GoodId, Fits;
    PlanesIsSound();
    if order != [] {
      var n := |order| - 1;
      PutsMakeTheFile(table, planes, stacks, order[..n]);
      var before, p := PutAll(table, planes, order[..n]), planes[order[n]];
      SetIsPut(before, p);
      GoodIdLength(p.id);
      hide SetFile;
      AloneIsSetFile(PLANES, Rows(before), SaveCall(p, stacks[order[n]]));
    }
  }

  /** In every interleaving of any saves, the file is the table into which the finished ones
      have been put, in the order in which they released the lock. */
  lemma ConcurrentSavesArePuts(table: seq<Plane>, planes: seq<Plane>, stacks: seq<seq<byte>>, run: seq<System>)
    requires GoodTable(table) && Savable(planes) && Stacks(stacks, |planes|) && Sound(PLANES)
    requires IsRun(PLANES, Layout(PLANES, Rows(table)), SaveCalls(planes, stacks), run)
    ensures var y := run[|run| - 1];
      && (forall k :: 0 <= k < |y.order| ==> y.order[k] < |planes|)
      && (forall k, l :: 0 <= k < l < |y.order| ==> y.order[k] != y.order[l])
      && GoodTable(PutAll(table, planes, y.order))
      && (y.lock == Nobody || AllDone(y) ==> y.file == Layout(PLANES, Rows(PutAll(table, planes, y.order))))
  {
    hide SetAll, Layout, Rows, GoodTable, Savable;
    ConcurrentSetsAreSerial(PLANES, Layout(PLANES, Rows(table)), SaveCalls(planes, stacks), run);
    PutsMakeTheFile(table, planes, stacks, run[|run| - 1].order);
  }
}
