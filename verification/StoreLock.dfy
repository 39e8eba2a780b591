/**
 Any number of processes, each in one call of `sto_set` on the same file, one system
 call or comparison at a time, under the whole-file write lock of `fcntl` (POSIX
 advisory locks, IEEE Std 1003.1).  Closing the descriptor is what releases the lock.
 */
module StoreLock {
  import opened Words
  import opened Storage

  datatype Pc = Open | Lock | Seek | ReadKey | Compare | Check | WriteKey | WriteData | Close | Done

  /** The arguments of one `sto_set`, and what its uninitialised `tmp_key` holds at first. */
  datatype Call = Call(key: seq<byte>, data: seq<byte>, stack: seq<byte>)

  datatype Process = Process(pc: Pc, cursor: nat, offset: nat, tmpKey: seq<byte>)

  datatype Holder = Nobody | Held(who: nat)

  /** `order` is the history of the processes that have finished, oldest first. */
  datatype System = System(file: seq<byte>, lock: Holder, procs: seq<Process>, order: seq<nat>)

  // ---------------------------------------------------------------- steps

  predicate Critical(pc: Pc) {
    pc in {Seek, ReadKey, Compare, Check, WriteKey, WriteData, Close}
  }

  predicate MayMove(y: System, i: nat) {
    && i < |y.procs|
    && var p := y.procs[i];
       |p.tmpKey| == KEY_SIZE && p.pc != Done && (p.pc == Lock ==> y.lock == Nobody)
  }

  /** The scan and the writes of one call; the file changes in the two write steps only. */
  function Move(db: Database, file: seq<byte>, call: Call, p: Process): (r: (seq<byte>, Process))
    requires KeySize(call) && |p.tmpKey| == KEY_SIZE
    ensures |r.1.tmpKey| == KEY_SIZE
  {
    match p.pc
    case Open => (file, p.(pc := Lock, cursor := 0, offset := 0))
    case Lock => (file, p.(pc := Seek))
    case Seek => (file, p.(pc := ReadKey, offset := p.cursor * db.rowSize))
    case ReadKey =>
      var b := ReadAt(file, p.offset, KEY_SIZE);
      if b == [] then (file, p.(pc := Check, tmpKey := Zeros(KEY_SIZE)))
      else (file, p.(pc := Compare, cursor := p.cursor + 1, offset := p.offset + |b|, tmpKey := b + p.tmpKey[|b|..]))
    case Compare => (file, p.(pc := if Matches(p.tmpKey, call.key) then Check else Seek))
    case Check => (file, p.(pc := if KeyEmpty(p.tmpKey) then WriteKey else WriteData))
    case WriteKey => (WriteAt(file, p.offset, Canon(call.key)), p.(pc := WriteData, offset := p.offset + KEY_SIZE))
    case WriteData => (WriteAt(file, p.offset, call.data), p.(pc := Close, offset := p.offset + |call.data|))
    case Close => (file, p.(pc := Done))
    case Done => (file, p)
  }

  predicate KeySizes(calls: seq<Call>) {
    forall i :: 0 <= i < |calls| ==> KeySize(calls[i])
  }

  predicate KeySize(call: Call) {
    |call.key| == KEY_SIZE && |call.stack| == KEY_SIZE
  }

  function Step(db: Database, calls: seq<Call>, y: System, i: nat): System
    requires KeySizes(calls) && |calls| == |y.procs| && MayMove(y, i)
  {
    var (file, p) := Move(db, y.file, calls[i], y.procs[i]);
    var z := y.(file := file, procs := y.procs[i := p]);
    match y.procs[i].pc
    case Lock => z.(lock := Held(i))
    case Close => z.(lock := Nobody, order := y.order + [i])
    case _ => z
  }

  function Fresh(call: Call): Process {
    Process(Open, 0, 0, call.stack)
  }

  /** All the calls about to be made, on any file. */
  function Start(file: seq<byte>, calls: seq<Call>): System {
    System(file, Nobody, seq(|calls|, i requires 0 <= i < |calls| => Fresh(calls[i])), [])
  }

  ghost predicate Next(db: Database, calls: seq<Call>, y: System, z: System) {
    && KeySizes(calls) && |calls| == |y.procs|
    && exists i: nat :: MayMove(y, i) && z == Step(db, calls, y, i)
  }

  ghost predicate IsRun(db: Database, file: seq<byte>, calls: seq<Call>, run: seq<System>) {
    && |run| > 0 && run[0] == Start(file, calls)
    && forall j :: 0 <= j < |run| - 1 ==> Next(db, calls, run[j], run[j + 1])
  }

  // ------------------------------------------------------- one call alone

  /** What holds at every step between taking and releasing the lock. */
  predicate Inside(db: Database, file: seq<byte>, p: Process) {
    && |p.tmpKey| == KEY_SIZE && Critical(p.pc)
    && (Scans(p.pc) ==> p.cursor <= |file|)
    && (p.pc == ReadKey ==> p.offset == p.cursor * db.rowSize)
  }

  predicate Scans(pc: Pc) {
    pc in {Seek, ReadKey, Compare}
  }

  /** Rows that may still be looked at, and the order of the steps for each. */
  function Ahead(file: seq<byte>, p: Process): nat {
    if Scans(p.pc) && p.cursor <= |file| then |file| - p.cursor else 0
  }

  function Rank(pc: Pc): nat {
    match pc
    case Compare => 6
    case Seek => 5
    case ReadKey => 4
    case Check => 3
    case WriteKey => 2
    case WriteData => 1
    case _ => 0
  }

  lemma RowsAreInFile(db: Database, file: seq<byte>, cursor: nat)
    requires db.rowSize > 0 && ReadAt(file, cursor * db.rowSize, KEY_SIZE) != []
    ensures cursor < |file|
  {
    assert cursor <= cursor * db.rowSize;
  }

  lemma MoveInside(db: Database, file: seq<byte>, call: Call, p: Process)
    requires db.rowSize > 0 && KeySize(call) && Inside(db, file, p) && p.pc != Close
    ensures var (file', p') := Move(db, file, call, p);
      && Inside(db, file', p')
      && (Ahead(file', p') < Ahead(file, p) || (Ahead(file', p') <= Ahead(file, p) && Rank(p'.pc) < Rank(p.pc)))
  {
    hide ReadAt, WriteAt, Matches, Canon, KeyEmpty;
    if p.pc == ReadKey && ReadAt(file, p.offset, KEY_SIZE) != [] {
      RowsAreInFile(db, file, p.cursor);
    }
  }

  /** The file when the call that stands at `p` has gone on without anybody else. */
  function Alone(db: Database, file: seq<byte>, call: Call, p: Process): seq<byte>
    requires db.rowSize > 0 && KeySize(call) && Inside(db, file, p)
    decreases Ahead(file, p), Rank(p.pc)
  {
    if p.pc == Close then file
    else
      MoveInside(db, file, call, p);
      var (file', p') := Move(db, file, call, p);
      Alone(db, file', call, p')
  }

  /** A whole call of `sto_set` on a file of any contents. */
  function SetAlone(db: Database, file: seq<byte>, call: Call): seq<byte>
    requires db.rowSize > 0 && KeySize(call)
  {
    Alone(db, file, call, Fresh(call).(pc := Seek))
  }

  /** The calls of `order`, one after the other. */
  function SetAll(db: Database, file: seq<byte>, calls: seq<Call>, order: seq<nat>): seq<byte>
    requires db.rowSize > 0 && KeySizes(calls) && forall k :: 0 <= k < |order| ==> order[k] < |calls|
  {
    if order == [] then file
    else SetAlone(db, SetAll(db, file, calls, order[..|order| - 1]), calls[order[|order| - 1]])
  }

  // ------------------------------------------------------------ invariant

  ghost predicate Orderly(calls: seq<Call>, y: System) {
    && |y.procs| == |calls|
    && (forall k :: 0 <= k < |y.order| ==> y.order[k] < |y.procs| && y.procs[y.order[k]].pc == Done)
    && (forall k, l :: 0 <= k < l < |y.order| ==> y.order[k] != y.order[l])
    && (forall i :: 0 <= i < |y.procs| && y.procs[i].pc == Done ==> i in y.order)
    && (forall i :: 0 <= i < |y.procs| ==> (Critical(y.procs[i].pc) <==> y.lock == Held(i)))
    && (y.lock.Held? ==> y.lock.who < |y.procs|)
    && (forall i :: 0 <= i < |y.procs| ==>
          && |y.procs[i].tmpKey| == KEY_SIZE
          && (y.procs[i].pc == Open || y.procs[i].pc == Lock ==> y.procs[i] == Fresh(calls[i]).(pc := y.procs[i].pc)))
  }

  /** The holder of the lock is inside a call on the file that the finished calls left. */
  ghost predicate Holding(db: Database, was: seq<byte>, file: seq<byte>, call: Call, p: Process)
    requires db.rowSize > 0 && KeySize(call)
  {
    && Inside(db, file, p) && Alone(db, file, call, p) == SetAlone(db, was, call)
    && (Scans(p.pc) || p.pc == Check ==> file == was)
  }

  ghost predicate Inv(db: Database, file: seq<byte>, calls: seq<Call>, y: System)
    requires db.rowSize > 0 && KeySizes(calls)
  {
    && Orderly(calls, y)
    && var was := SetAll(db, file, calls, y.order);
       && (y.lock == Nobody ==> y.file == was)
       && (y.lock.Held? ==> Holding(db, was, y.file, calls[y.lock.who], y.procs[y.lock.who]))
  }

  // ------------------------------------------------- steps keep the invariant

  lemma MoveKeepsOrderly(calls: seq<Call>, y: System, i: nat, file: seq<byte>, lock: Holder, p: Process)
    requires Orderly(calls, y) && i < |y.procs| && y.procs[i].pc != Done && p.pc != Done && |p.tmpKey| == KEY_SIZE
    requires Critical(p.pc) <==> lock == Held(i)
    requires p.pc == Open || p.pc == Lock ==> p == Fresh(calls[i]).(pc := p.pc)
    requires lock == y.lock || (y.lock == Nobody && lock == Held(i))
    ensures Orderly(calls, System(file, lock, y.procs[i := p], y.order))
  {
    hide Critical;
    assert forall k :: 0 <= k < |y.order| ==> y.order[k] != i;
  }

  lemma CloseKeepsOrderly(calls: seq<Call>, y: System, i: nat, p: Process)
    requires Orderly(calls, y) && i < |y.procs| && y.procs[i].pc == Close && p == y.procs[i].(pc := Done)
    ensures Orderly(calls, System(y.file, Nobody, y.procs[i := p], y.order + [i]))
  {
    assert forall k :: 0 <= k < |y.order| ==> y.order[k] != i;
    assert (y.order + [i])[|y.order|] == i;
    assert forall j :: j in y.order ==> j in y.order + [i];
  }

  lemma StepKeepsOrderly(db: Database, calls: seq<Call>, y: System, i: nat)
    requires KeySizes(calls) && Orderly(calls, y) && MayMove(y, i)
    requires y.lock == Held(i) && y.procs[i].pc != Close ==> Critical(Move(db, y.file, calls[i], y.procs[i]).1.pc)
    ensures Orderly(calls, Step(db, calls, y, i))
  {
    hide Canon, Matches, KeyEmpty, WriteAt, ReadAt;
    StepOfOne(db, calls, y, i);
    var z := Step(db, calls, y, i);
    if y.procs[i].pc == Close {
      CloseKeepsOrderly(calls, y, i, z.procs[i]);
    } else {
      MoveKeepsOrderly(calls, y, i, z.file, z.lock, z.procs[i]);
    }
    hide Orderly;
  }

  /** What a step changes besides the file. */
  lemma StepOfOne(db: Database, calls: seq<Call>, y: System, i: nat)
    requires KeySizes(calls) && |calls| == |y.procs| && MayMove(y, i)
    ensures var z, p := Step(db, calls, y, i), Move(db, y.file, calls[i], y.procs[i]).1;
      z == match y.procs[i].pc
           case Lock => System(z.file, Held(i), y.procs[i := p], y.order)
           case Close => System(y.file, Nobody, y.procs[i := y.procs[i].(pc := Done)], y.order + [i])
           case _ => System(z.file, y.lock, y.procs[i := p], y.order)
  {
    hide Canon, Matches, KeyEmpty, WriteAt, ReadAt;
  }

  lemma OneStepAlone(db: Database, was: seq<byte>, file: seq<byte>, call: Call, p: Process)
    requires db.rowSize > 0 && KeySize(call) && Holding(db, was, file, call, p) && p.pc != Close
    ensures var (file', p') := Move(db, file, call, p); Holding(db, was, file', call, p') && p'.pc != Done
  {
    hide ReadAt, WriteAt, Matches, Canon, KeyEmpty, SetAlone;
    MoveInside(db, file, call, p);
  }

  lemma CloseIsLast(db: Database, file: seq<byte>, calls: seq<Call>, order: seq<nat>, i: nat,
                    left: seq<byte>, p: Process)
    requires db.rowSize > 0 && KeySizes(calls) && i < |calls| && p.pc == Close
    requires forall k :: 0 <= k < |order| ==> order[k] < |calls|
    requires Holding(db, SetAll(db, file, calls, order), left, calls[i], p)
    ensures SetAll(db, file, calls, order + [i]) == left
  {
    hide SetAlone;
    assert (order + [i])[..|order|] == order;
  }

  lemma StepKeepsInv(db: Database, file: seq<byte>, calls: seq<Call>, y: System, i: nat)
    requires db.rowSize > 0 && KeySizes(calls) && Inv(db, file, calls, y) && MayMove(y, i)
    ensures Inv(db, file, calls, Step(db, calls, y, i))
  {
    hide Holding, SetAll, Canon, Matches, KeyEmpty, WriteAt, ReadAt, Inside;
    var was, p := SetAll(db, file, calls, y.order), y.procs[i];
    if p.pc == Lock {
      LockHolds(db, was, calls[i]);
    } else if p.pc == Close {
      CloseIsLast(db, file, calls, y.order, i, y.file, p);
    } else if p.pc != Open {
      OneStepAlone(db, was, y.file, calls[i], p);
      HoldingIsCritical(db, was, Move(db, y.file, calls[i], p).0, calls[i], Move(db, y.file, calls[i], p).1);
    }
    StepKeepsOrderly(db, calls, y, i);
    hide Orderly;
  }

  lemma LockHolds(db: Database, was: seq<byte>, call: Call)
    requires db.rowSize > 0 && KeySize(call)
    ensures Holding(db, was, was, call, Fresh(call).(pc := Seek))
  {
  }

  lemma HoldingIsCritical(db: Database, was: seq<byte>, file: seq<byte>, call: Call, p: Process)
    requires db.rowSize > 0 && KeySize(call) && Holding(db, was, file, call, p)
    ensures Critical(p.pc)
  {
  }

  lemma StartInv(db: Database, file: seq<byte>, calls: seq<Call>)
    requires db.rowSize > 0 && KeySizes(calls)
    ensures Inv(db, file, calls, Start(file, calls))
  {
  }

  lemma {:induction false} EveryRunKeepsInv(db: Database, file: seq<byte>, calls: seq<Call>, run: seq<System>)
    requires db.rowSize > 0 && KeySizes(calls) && IsRun(db, file, calls, run)
    ensures Inv(db, file, calls, run[|run| - 1])
  {
    hide Inv, Step, MayMove;
    if |run| == 1 {
      StartInv(db, file, calls);
    } else {
      EveryRunKeepsInv(db, file, calls, run[..|run| - 1]);
      var y, z := run[|run| - 2], run[|run| - 1];
      assert Next(db, calls, y, z);
      var i: nat :| MayMove(y, i) && z == Step(db, calls, y, i);
      StepKeepsInv(db, file, calls, y, i);
    }
  }

  predicate AllDone(y: System) {
    forall i :: 0 <= i < |y.procs| ==> y.procs[i].pc == Done
  }

  /** In every interleaving of any calls on any file, whenever nobody holds the lock the
      file is what the finished calls leave when made one after the other, each exactly
      once, in the order in which they released the lock; and nobody holds it when all the
      calls have returned. */
  lemma ConcurrentSetsAreSerial(db: Database, file: seq<byte>, calls: seq<Call>, run: seq<System>)
    requires db.rowSize > 0 && KeySizes(calls) && IsRun(db, file, calls, run)
    ensures var y := run[|run| - 1];
      && |y.procs| == |calls|
      && (forall k :: 0 <= k < |y.order| ==> y.order[k] < |calls|)
      && (forall k, l :: 0 <= k < l < |y.order| ==> y.order[k] != y.order[l])
      && (forall i :: 0 <= i < |calls| ==> (y.procs[i].pc == Done <==> i in y.order))
      && (y.lock == Nobody ==> y.file == SetAll(db, file, calls, y.order))
      && (AllDone(y) ==> y.lock == Nobody)
  {
    EveryRunKeepsInv(db, file, calls, run);
    hide Holding, SetAll;
  }

  /** Somebody can always go on until all calls are done. */
  lemma NobodyIsStuck(db: Database, file: seq<byte>, calls: seq<Call>, run: seq<System>)
    requires db.rowSize > 0 && KeySizes(calls) && IsRun(db, file, calls, run)
    ensures var y := run[|run| - 1];
      |y.procs| == |calls| && (AllDone(y) || exists i: nat :: MayMove(y, i))
  {
    EveryRunKeepsInv(db, file, calls, run);
    hide Holding, SetAll;
    var y := run[|run| - 1];
    if y.lock.Held? {
      assert MayMove(y, y.lock.who);
    } else if i: nat :| i < |y.procs| && y.procs[i].pc != Done {
      assert MayMove(y, i);
    }
  }

  // ------------------------------------------------------------- termination

  /** Steps left in one call when the file is never longer than `most`. */
  function CallWork(most: nat, p: Process): int {
    match p.pc
    case Open => 3 * most + 9
    case Lock => 3 * most + 8
    case Seek => 3 * (most - p.cursor) + 7
    case ReadKey => 3 * (most - p.cursor) + 6
    case Compare => 3 * (most - p.cursor) + 8
    case Check => 4
    case WriteKey => 3
    case WriteData => 2
    case Close => 1
    case Done => 0
  }

  function Work(most: nat, procs: seq<Process>): int {
    if procs == [] then 0 else Work(most, procs[..|procs| - 1]) + CallWork(most, procs[|procs| - 1])
  }

  lemma {:induction false} WorkOfOne(most: nat, procs: seq<Process>, i: nat, p: Process)
    requires i < |procs|
    ensures Work(most, procs[i := p]) == Work(most, procs) - CallWork(most, procs[i]) + CallWork(most, p)
  {
    hide CallWork;
    var n := |procs| - 1;
    if i < n {
      assert procs[i := p][..n] == procs[..n][i := p];
      WorkOfOne(most, procs[..n], i, p);
    } else {
      assert procs[i := p][..n] == procs[..n];
    }
  }

  lemma {:induction false} WorkAtLeastZero(most: nat, procs: seq<Process>)
    requires forall i :: 0 <= i < |procs| ==> CallWork(most, procs[i]) >= 0
    ensures Work(most, procs) >= 0
  {
    hide CallWork;
    if procs != [] { WorkAtLeastZero(most, procs[..|procs| - 1]); }
  }

  /** Different processes, so no more of them than there are. */
  lemma {:induction false} NoMoreThan(order: seq<nat>, n: nat)
    requires forall k :: 0 <= k < |order| ==> order[k] < n
    requires forall k, l :: 0 <= k < l < |order| ==> order[k] != order[l]
    ensures |order| <= n
    decreases n
  {
    if order != [] {
      assert order[0] < n;
      if k: nat :| k < |order| && order[k] == n - 1 {
        NoMoreThan(order[..k] + order[k + 1..], n - 1);
      } else {
        NoMoreThan(order, n - 1);
      }
    }
  }

  /** A call writes at the end of the file or at most one slot behind it. */
  ghost predicate Reaches(db: Database, file: seq<byte>, p: Process) {
    && (Scans(p.pc) ==> p.cursor * db.rowSize <= |file| + db.rowSize)
    && (p.pc != Seek ==> p.offset <= |file| + db.rowSize)
  }

  /** How long the file can be when a call is over. */
  function Reach(db: Database, file: seq<byte>, call: Call, p: Process): nat {
    match p.pc
    case WriteData => if |file| < p.offset + |call.data| then p.offset + |call.data| else |file|
    case Close => |file|
    case _ => |file| + db.rowSize + KEY_SIZE + |call.data|
  }

  lemma NextSlot(n: nat, size: nat)
    ensures (n + 1) * size == n * size + size
  {
  }

  lemma ReachShrinks(db: Database, file: seq<byte>, call: Call, p: Process)
    requires db.rowSize > 0 && KeySize(call) && Inside(db, file, p) && p.pc != Close
    requires p.pc in {Seek, ReadKey, Compare, Check, WriteKey} ==> Reaches(db, file, p)
    ensures var (file', p') := Move(db, file, call, p);
      && (p'.pc in {Seek, ReadKey, Compare, Check, WriteKey} ==> Reaches(db, file', p'))
      && Reach(db, file', call, p') <= Reach(db, file, call, p)
  {
    hide Matches, Canon, KeyEmpty, WriteAt, ReadAt;
    NextSlot(p.cursor, db.rowSize);
    ReadLength(file, p.offset, KEY_SIZE);
    WriteLength(file, p.offset, Canon(call.key));
    WriteLength(file, p.offset, call.data);
  }

  lemma WriteLength(file: seq<byte>, at: nat, b: seq<byte>)
    ensures |WriteAt(file, at, b)| <= if |file| < at + |b| then at + |b| else |file|
  {
  }

  lemma ReadLength(file: seq<byte>, at: nat, n: nat)
    ensures ReadAt(file, at, n) != [] ==> at + |ReadAt(file, at, n)| <= |file|
  {
  }

  lemma {:induction false} AloneReaches(db: Database, file: seq<byte>, call: Call, p: Process)
    requires db.rowSize > 0 && KeySize(call) && Inside(db, file, p)
    requires p.pc in {Seek, ReadKey, Compare, Check, WriteKey} ==> Reaches(db, file, p)
    ensures |Alone(db, file, call, p)| <= Reach(db, file, call, p)
    decreases Ahead(file, p), Rank(p.pc)
  {
    hide Move, Reaches, Reach, Inside;
    if p.pc != Close {
      InsideKey(db, file, p);
      MoveInside(db, file, call, p);
      ReachShrinks(db, file, call, p);
      var (file', p') := Move(db, file, call, p);
      AloneReaches(db, file', call, p');
    } else {
      ClosedReach(db, file, call, p);
    }
  }

  lemma ClosedReach(db: Database, file: seq<byte>, call: Call, p: Process)
    requires p.pc == Close
    ensures Reach(db, file, call, p) == |file|
  {
  }

  /** No call adds more than `growth` bytes. */
  ghost predicate GrowBy(db: Database, calls: seq<Call>, growth: nat) {
    forall i :: 0 <= i < |calls| ==> db.rowSize + KEY_SIZE + |calls[i].data| <= growth
  }

  lemma {:induction false} FileIsBounded(db: Database, file: seq<byte>, calls: seq<Call>, order: seq<nat>, growth: nat)
    requires db.rowSize > 0 && KeySizes(calls) && forall k :: 0 <= k < |order| ==> order[k] < |calls|
    requires GrowBy(db, calls, growth)
    ensures |SetAll(db, file, calls, order)| <= |file| + |order| * growth
  {
    hide Alone;
    if order != [] {
      var n := |order| - 1;
      FileIsBounded(db, file, calls, order[..n], growth);
      AloneReaches(db, SetAll(db, file, calls, order[..n]), calls[order[n]],
                   Fresh(calls[order[n]]).(pc := Seek));
      NextSlot(n, growth);
    }
  }

  lemma Bounded(db: Database, file: seq<byte>, calls: seq<Call>, y: System, growth: nat)
    requires db.rowSize > 0 && KeySizes(calls) && Inv(db, file, calls, y) && GrowBy(db, calls, growth)
    ensures forall k :: 0 <= k < |y.order| ==> y.order[k] < |calls|
    ensures |SetAll(db, file, calls, y.order)| <= |file| + |calls| * growth
  {
    hide Holding, SetAll;
    NoMoreThan(y.order, |calls|);
    FileIsBounded(db, file, calls, y.order, growth);
    MulMonotone(|y.order|, |calls|, growth);
  }

  lemma MoveProgress(db: Database, was: seq<byte>, file: seq<byte>, call: Call, p: Process, most: nat)
    requires db.rowSize > 0 && KeySize(call) && Holding(db, was, file, call, p) && |was| <= most
    ensures CallWork(most, p) > 0 && CallWork(most, Move(db, file, call, p).1) < CallWork(most, p)
  {
    hide Alone, Matches, Canon, KeyEmpty, WriteAt;
  }

  lemma OneProgress(db: Database, file: seq<byte>, calls: seq<Call>, y: System, i: nat, most: nat)
    requires db.rowSize > 0 && KeySizes(calls) && Inv(db, file, calls, y) && i < |y.procs|
    requires |SetAll(db, file, calls, y.order)| <= most
    ensures |calls| == |y.procs| && |y.procs[i].tmpKey| == KEY_SIZE && CallWork(most, y.procs[i]) >= 0
    ensures y.procs[i].pc != Done ==>
      CallWork(most, Move(db, y.file, calls[i], y.procs[i]).1) < CallWork(most, y.procs[i])
  {
    hide Holding, SetAll, Canon, Matches, KeyEmpty, WriteAt, ReadAt;
    if Critical(y.procs[i].pc) {
      MoveProgress(db, SetAll(db, file, calls, y.order), y.file, calls[i], y.procs[i], most);
    }
  }

  lemma StepProgress(db: Database, file: seq<byte>, calls: seq<Call>, y: System, i: nat, most: nat)
    requires db.rowSize > 0 && KeySizes(calls) && Inv(db, file, calls, y) && MayMove(y, i)
    requires |SetAll(db, file, calls, y.order)| <= most
    ensures |calls| == |y.procs| && Work(most, Step(db, calls, y, i).procs) < Work(most, y.procs)
  {
    hide Inv, Move, Work, CallWork, SetAll;
    OneProgress(db, file, calls, y, i, most);
    WorkOfOne(most, y.procs, i, Move(db, y.file, calls[i], y.procs[i]).1);
  }

  lemma WorkIsNatural(db: Database, file: seq<byte>, calls: seq<Call>, y: System, most: nat)
    requires db.rowSize > 0 && KeySizes(calls) && Inv(db, file, calls, y)
    requires |SetAll(db, file, calls, y.order)| <= most
    ensures Work(most, y.procs) >= 0
  {
    hide Inv, Move, Work, CallWork, SetAll;
    forall i | 0 <= i < |y.procs| ensures CallWork(most, y.procs[i]) >= 0 {
      OneProgress(db, file, calls, y, i, most);
    }
    WorkAtLeastZero(most, y.procs);
  }

  /** No interleaving is longer than an explicit bound, so together with `NobodyIsStuck`
      all the calls return. */
  lemma {:induction false} EveryRunEnds(db: Database, file: seq<byte>, calls: seq<Call>, run: seq<System>, growth: nat)
    requires db.rowSize > 0 && KeySizes(calls) && IsRun(db, file, calls, run) && GrowBy(db, calls, growth)
    ensures var most := |file| + |calls| * growth;
      0 <= Work(most, run[|run| - 1].procs) <= Work(most, Start(file, calls).procs) - (|run| - 1)
  {
    hide Inv, Work, Step, MayMove, GrowBy, SetAll;
    var most := |file| + |calls| * growth;
    EveryRunKeepsInv(db, file, calls, run);
    Bounded(db, file, calls, run[|run| - 1], growth);
    WorkIsNatural(db, file, calls, run[|run| - 1], most);
    if |run| > 1 {
      EveryRunEnds(db, file, calls, run[..|run| - 1], growth);
      EveryRunKeepsInv(db, file, calls, run[..|run| - 1]);
      var y, z := run[|run| - 2], run[|run| - 1];
      assert Next(db, calls, y, z);
      var i: nat :| MayMove(y, i) && z == Step(db, calls, y, i);
      Bounded(db, file, calls, y, growth);
      StepProgress(db, file, calls, y, i, most);
    }
  }

  // ------------------------------------------------------- calls on a table

  /** Where a call on the file of a table stands. */
  ghost predicate Scanning(db: Database, table: seq<Row>, file: seq<byte>, call: Call, p: Process)
    requires Sound(db) && Shaped(db, table) && KeySize(call) && |call.data| == db.dataSize
  {
    var n, hit := |table|, FirstMatch(db, table, call.key);
    var here := if hit == n then Pos(db, n) else Pos(db, hit) + KEY_SIZE;
    var keyless := hit == n || KeyEmpty(table[hit].key);
    match p.pc
    case Seek => file == Layout(db, table) && p.cursor <= hit
    case ReadKey => file == Layout(db, table) && p.cursor <= hit && p.offset == Pos(db, p.cursor)
    case Compare =>
      && file == Layout(db, table) && 0 < p.cursor <= n && p.cursor - 1 <= hit
      && p.tmpKey == table[p.cursor - 1].key && p.offset == Pos(db, p.cursor - 1) + KEY_SIZE
    case Check => file == Layout(db, table) && (KeyEmpty(p.tmpKey) <==> keyless) && p.offset == here
    case WriteKey => file == Layout(db, table) && keyless && p.offset == here
    case WriteData =>
      if keyless then file == WriteAt(Layout(db, table), here, Canon(call.key)) && p.offset == here + KEY_SIZE
      else file == Layout(db, table) && p.offset == here
    case Close => file == SetFile(db, table, call.key, call.data)
    case _ => false
  }

  lemma FirstMatchIs(db: Database, table: seq<Row>, key: seq<byte>, i: nat)
    requires Shaped(db, table) && |key| == KEY_SIZE && i <= |table| && i <= FirstMatch(db, table, key)
    ensures i < |table| && Matches(table[i].key, key) ==> FirstMatch(db, table, key) == i
    ensures i < |table| && !Matches(table[i].key, key) ==> i < FirstMatch(db, table, key)
  {
  }

  lemma ZeroKeyIsEmpty()
    ensures KeyEmpty(Zeros(KEY_SIZE))
  {
  }

  lemma ScanStep(db: Database, table: seq<Row>, file: seq<byte>, call: Call, p: Process)
    requires Sound(db) && Shaped(db, table)
    requires KeySize(call) && |call.data| == db.dataSize && |p.tmpKey| == KEY_SIZE
    requires p.pc != Close && Scanning(db, table, file, call, p)
    ensures var (file', p') := Move(db, file, call, p); Scanning(db, table, file', call, p')
  {
    hide Layout, Pos, Canon, Matches, FirstMatch, WriteAt, ReadAt, KeyEmpty;
    match p.pc
    case Seek => PosIsProduct(db, p.cursor);
    case ReadKey =>
      if p.cursor < |table| {
        RowInFile(db, table, p.cursor);
        assert table[p.cursor].key + p.tmpKey[KEY_SIZE..] == table[p.cursor].key;
      } else {
        EndOfFile(db, table);
        ZeroKeyIsEmpty();
      }
    case Compare => FirstMatchIs(db, table, call.key, p.cursor - 1);
    case WriteData =>
      WriteTwice(Layout(db, table), Pos(db, |table|), Canon(call.key), call.data);
      if FirstMatch(db, table, call.key) < |table| {
        var at := Pos(db, FirstMatch(db, table, call.key)) + KEY_SIZE;
        WriteTwice(Layout(db, table), at, Canon(call.key), call.data);
      }
    case _ =>
  }

  lemma {:induction false} AloneOnTable(db: Database, table: seq<Row>, file: seq<byte>, call: Call, p: Process)
    requires Sound(db) && Shaped(db, table) && KeySize(call) && |call.data| == db.dataSize
    requires Inside(db, file, p) && Scanning(db, table, file, call, p)
    ensures Alone(db, file, call, p) == SetFile(db, table, call.key, call.data)
    decreases Ahead(file, p), Rank(p.pc)
  {
    if p.pc == Close {
      ClosedFile(db, table, file, call, p);
    } else {
      hide Scanning, Move, SetFile, Inside;
      MoveInside(db, file, call, p);
      var (file', p') := Move(db, file, call, p);
      assert |p.tmpKey| == KEY_SIZE by { InsideKey(db, file, p); }
      ScanStep(db, table, file, call, p);
      AloneOnTable(db, table, file', call, p');
    }
  }

  lemma InsideKey(db: Database, file: seq<byte>, p: Process)
    requires Inside(db, file, p)
    ensures |p.tmpKey| == KEY_SIZE
  {
  }

  lemma ClosedFile(db: Database, table: seq<Row>, file: seq<byte>, call: Call, p: Process)
    requires Sound(db) && Shaped(db, table) && KeySize(call) && |call.data| == db.dataSize
    requires Inside(db, file, p) && Scanning(db, table, file, call, p) && p.pc == Close
    ensures Alone(db, file, call, p) == SetFile(db, table, call.key, call.data)
  {
    hide SetFile, Layout, Canon, WriteAt;
  }

  /** Whatever the key, the steps taken alone leave what the program of one process leaves. */
  lemma AloneIsSetFile(db: Database, table: seq<Row>, call: Call)
    requires Sound(db) && Shaped(db, table) && KeySize(call) && |call.data| == db.dataSize
    ensures SetAlone(db, Layout(db, table), call) == SetFile(db, table, call.key, call.data)
  {
    hide Alone, Layout, SetFile, Canon, WriteAt;
    AloneOnTable(db, table, Layout(db, table), call, Fresh(call).(pc := Seek));
  }

  /** The calls of `order` made one after the other on a table. */
  function After(rows: seq<Row>, calls: seq<Call>, order: seq<nat>): seq<Row>
    requires KeySizes(calls) && forall k :: 0 <= k < |order| ==> order[k] < |calls|
  {
    if order == [] then rows
    else
      var call := calls[order[|order| - 1]];
      Upsert(After(rows, calls, order[..|order| - 1]), Canon(call.key), call.data)
  }

  /** Calls whose keys are names: data of the table's size, and non-empty keys none of which
      is a mere prefix of another key in use (`names` holds the keys in use, as stored). */
  ghost predicate Sensible(db: Database, names: set<seq<byte>>, rows: seq<Row>, calls: seq<Call>) {
    && Sound(db) && Known(db, names, rows) && KeySizes(calls)
    && (forall i :: 0 <= i < |calls| ==> |calls[i].data| == db.dataSize && StrLen(calls[i].key) > 0)
    && (forall i :: 0 <= i < |calls| ==> Canon(calls[i].key) in names)
    && (forall i, k :: 0 <= i < |calls| && k in names && Matches(k, calls[i].key) ==> k == Canon(calls[i].key))
  }

  ghost predicate Known(db: Database, names: set<seq<byte>>, table: seq<Row>) {
    Shaped(db, table) && DistinctKeys(table) && forall k :: 0 <= k < |table| ==> table[k].key in names
  }

  lemma KnownKeysCastNoShadow(db: Database, names: set<seq<byte>>, rows: seq<Row>, calls: seq<Call>,
                              table: seq<Row>, i: nat)
    requires Sensible(db, names, rows, calls) && Known(db, names, table) && i < |calls|
    ensures NoShadow(db, table, calls[i].key)
  {
    hide Canon, Find, StrLen, Matches;
    forall k | 0 <= k < |table| && Matches(table[k].key, calls[i].key) ensures table[k].key == Canon(calls[i].key) {
    }
  }

  lemma UpsertKeepsKnown(db: Database, names: set<seq<byte>>, table: seq<Row>, key: seq<byte>, data: seq<byte>)
    requires Known(db, names, table) && |key| == KEY_SIZE && |data| == db.dataSize && key in names
    ensures Known(db, names, Upsert(table, key, data))
  {
    hide Find;
    UpsertIsMapUpdate(table, key, data);
  }

  /** One call more on a table of names. */
  lemma OneMoreCall(db: Database, names: set<seq<byte>>, rows: seq<Row>, calls: seq<Call>, table: seq<Row>, i: nat)
    requires Sensible(db, names, rows, calls) && Known(db, names, table) && i < |calls|
    ensures var after := Upsert(table, Canon(calls[i].key), calls[i].data);
      Known(db, names, after) && SetAlone(db, Layout(db, table), calls[i]) == Layout(db, after)
  {
    KnownKeysCastNoShadow(db, names, rows, calls, table, i);
    UpsertKeepsKnown(db, names, table, Canon(calls[i].key), calls[i].data);
    hide Alone, SetAlone, Layout, SetFile, Canon, Matches, StrLen, Upsert, NoShadow, DistinctKeys;
    AloneIsSetFile(db, table, calls[i]);
    SetRefinesUpsert(db, table, calls[i].key, calls[i].data);
  }

  lemma {:induction false} CallsOnTable(db: Database, names: set<seq<byte>>, rows: seq<Row>, calls: seq<Call>,
                                        order: seq<nat>)
    requires Sensible(db, names, rows, calls) && forall k :: 0 <= k < |order| ==> order[k] < |calls|
    ensures Known(db, names, After(rows, calls, order))
    ensures SetAll(db, Layout(db, rows), calls, order) == Layout(db, After(rows, calls, order))
  {
    hide SetAlone, Layout, Upsert, Canon, Matches, StrLen;
    if order != [] {
      CallsOnTable(db, names, rows, calls, order[..|order| - 1]);
      OneMoreCall(db, names, rows, calls, After(rows, calls, order[..|order| - 1]), order[|order| - 1]);
    }
  }

  /** With such keys the file is the table that map updates in that order make, and no key
      ever has two rows. */
  lemma ConcurrentSetsAreUpserts(db: Database, names: set<seq<byte>>, rows: seq<Row>, calls: seq<Call>,
                                 run: seq<System>)
    requires Sensible(db, names, rows, calls) && IsRun(db, Layout(db, rows), calls, run)
    ensures var y := run[|run| - 1];
      && (forall k :: 0 <= k < |y.order| ==> y.order[k] < |calls|)
      && var table := After(rows, calls, y.order);
         && Shaped(db, table) && DistinctKeys(table)
         && (y.lock == Nobody || AllDone(y) ==> y.file == Layout(db, table))
  {
    ConcurrentSetsAreSerial(db, Layout(db, rows), calls, run);
    CallsOnTable(db, names, rows, calls, run[|run| - 1].order);
    hide Sensible, SetAll, Layout, After;
  }
}
