/**
 One direction of a shared-memory connection: a 32-byte zone, the counting
 semaphores `free` and `available`, the writer's cursor `wr` (private to the
 sender) and the reader's cursor `rd` (private to the receiver).  The two loops
 are cut into one step per source line, so that any interleaving of sender and
 receiver is a sequence of steps.
 */
module Shmem {
  import opened Words

  const ZONE_SIZE := 32

  /** Where `transport_send` stands; `TIdle` is outside a call, `TTop` is the loop head. */
  datatype TxPc = TIdle | TTop | TStore | TAdvance | TCount | TPost
  datatype Tx = Tx(pc: TxPc, wr: nat, buffer: seq<byte>, bytes: nat)

  /** Where `transport_recv` stands. */
  datatype RxPc = RIdle | RTop | RLoad | RAdvance | RCount | RPost
  datatype Rx = Rx(pc: RxPc, rd: nat, buffer: seq<byte>, bytes: nat)

  /** The shared part.  `sent` and `received` are histories that no step reads. */
  datatype Ring = Ring(zone: seq<byte>, free: nat, available: nat, sent: seq<byte>, received: seq<byte>)

  datatype Link = Link(ring: Ring, tx: Tx, rx: Rx)

  const FRESH: Link := Link(Ring(Zeros(ZONE_SIZE), ZONE_SIZE, 0, [], []),
                            Tx(TIdle, 0, [], 0), Rx(RIdle, 0, [], 0))

  // ---------------------------------------------------------------- steps

  predicate TxShape(t: Tx) {
    && t.wr < ZONE_SIZE
    && t.bytes <= |t.buffer|
    && (t.pc in {TStore, TAdvance, TCount} ==> t.bytes < |t.buffer|)
  }

  predicate RxShape(x: Rx) {
    && x.rd < ZONE_SIZE
    && x.bytes <= |x.buffer|
    && (x.pc in {RLoad, RAdvance, RCount} ==> x.bytes < |x.buffer|)
  }

  predicate TxBlocked(r: Ring, t: Tx) {
    t.pc == TTop && t.bytes < |t.buffer| && r.free == 0
  }

  predicate RxBlocked(r: Ring, x: Rx) {
    x.pc == RTop && x.bytes < |x.buffer| && r.available == 0
  }

  function TxCall(t: Tx, buffer: seq<byte>): Tx {
    t.(pc := TTop, buffer := buffer, bytes := 0)
  }

  function RxCall(x: Rx, buffer: seq<byte>): Rx {
    x.(pc := RTop, buffer := buffer, bytes := 0)
  }

  function TxStep(r: Ring, t: Tx): (Ring, Tx)
    requires |r.zone| == ZONE_SIZE && TxShape(t) && t.pc != TIdle && !TxBlocked(r, t)
  {
    match t.pc
    case TTop =>
      if t.bytes < |t.buffer|
      then (r.(free := r.free - 1), t.(pc := TStore))
      else (r, t.(pc := TIdle))
    case TStore =>
      (r.(zone := r.zone[t.wr := t.buffer[t.bytes]], sent := r.sent + [t.buffer[t.bytes]]), t.(pc := TAdvance))
    case TAdvance => (r, t.(pc := TCount, wr := (t.wr + 1) % ZONE_SIZE))
    case TCount => (r, t.(pc := TPost, bytes := t.bytes + 1))
    case TPost => (r.(available := r.available + 1), t.(pc := TTop))
  }

  function RxStep(r: Ring, x: Rx): (Ring, Rx)
    requires |r.zone| == ZONE_SIZE && RxShape(x) && x.pc != RIdle && !RxBlocked(r, x)
  {
    match x.pc
    case RTop =>
      if x.bytes < |x.buffer|
      then (r.(available := r.available - 1), x.(pc := RLoad))
      else (r, x.(pc := RIdle))
    case RLoad =>
      (r.(received := r.received + [r.zone[x.rd]]),
       x.(pc := RAdvance, buffer := x.buffer[x.bytes := r.zone[x.rd]]))
    case RAdvance => (r, x.(pc := RCount, rd := (x.rd + 1) % ZONE_SIZE))
    case RCount => (r, x.(pc := RPost, bytes := x.bytes + 1))
    case RPost => (r.(free := r.free + 1), x.(pc := RTop))
  }

  // ------------------------------------------------------------ invariant

  function TxHeld(t: Tx): nat {
    if t.pc in {TStore, TAdvance, TCount, TPost} then 1 else 0
  }

  function RxHeld(x: Rx): nat {
    if x.pc in {RLoad, RAdvance, RCount, RPost} then 1 else 0
  }

  /** Bytes of the current buffer already in the zone. */
  function Stored(t: Tx): nat {
    if t.pc in {TAdvance, TCount} then t.bytes + 1 else t.bytes
  }

  /** Bytes of the current buffer already taken out of the zone. */
  function Loaded(x: Rx): nat {
    if x.pc in {RAdvance, RCount} then x.bytes + 1 else x.bytes
  }

  /** 1 while a stored byte has not been posted yet. */
  function Unposted(t: Tx): nat {
    if t.pc in {TAdvance, TCount, TPost} then 1 else 0
  }

  /** 1 while a byte has been claimed but not loaded yet. */
  function Claimed(x: Rx): nat {
    if x.pc == RLoad then 1 else 0
  }

  /** The cell of the n-th byte. */
  function Slot(n: int): nat {
    n % ZONE_SIZE
  }

  ghost predicate Shapes(r: Ring, t: Tx, x: Rx) {
    |r.zone| == ZONE_SIZE && TxShape(t) && RxShape(x)
  }

  ghost predicate Semaphores(r: Ring, t: Tx, x: Rx) {
    && r.free + r.available + TxHeld(t) + RxHeld(x) == ZONE_SIZE
    && |r.sent| - |r.received| == r.available + Unposted(t) + Claimed(x)
  }

  ghost predicate Cursors(r: Ring, t: Tx, x: Rx) {
    && t.wr == Slot(|r.sent| - (if t.pc == TAdvance then 1 else 0))
    && x.rd == Slot(|r.received| - (if x.pc == RAdvance then 1 else 0))
  }

  /** The last `n` bytes of the history are the first `n` of the buffer. */
  ghost predicate EndsWith(history: seq<byte>, buffer: seq<byte>, n: nat) {
    n <= |history| && n <= |buffer| && history[|history| - n..] == buffer[..n]
  }

  /** The cells of the bytes sent but not yet received still hold them. */
  ghost predicate Unread(zone: seq<byte>, sent: seq<byte>, from: nat)
    requires |zone| == ZONE_SIZE
  {
    forall i :: from <= i < |sent| ==> Slot(i) < ZONE_SIZE && zone[Slot(i)] == sent[i]
  }

  ghost predicate Bytes(r: Ring, t: Tx, x: Rx)
    requires |r.zone| == ZONE_SIZE
  {
    && r.received <= r.sent
    && Unread(r.zone, r.sent, |r.received|)
    && EndsWith(r.sent, t.buffer, Stored(t))
    && EndsWith(r.received, x.buffer, Loaded(x))
  }

  ghost predicate RingInv(r: Ring, t: Tx, x: Rx) {
    Shapes(r, t, x) && Semaphores(r, t, x) && Cursors(r, t, x) && Bytes(r, t, x)
  }

  lemma SlotInZone(n: int)
    ensures Slot(n) < ZONE_SIZE
  {
  }

  lemma SlotFromSlot(a: int, j: int)
    ensures Slot(Slot(a) + j) == Slot(a + j)
  {
  }

  lemma WindowIsInjective(i: nat, n: nat)
    requires i < n < i + ZONE_SIZE
    ensures Slot(i) != Slot(n)
  {
  }

  lemma TxStepKeepsCounts(r: Ring, t: Tx, x: Rx)
    requires Shapes(r, t, x) && Semaphores(r, t, x) && t.pc != TIdle && !TxBlocked(r, t)
    ensures var (r', t') := TxStep(r, t); Shapes(r', t', x) && Semaphores(r', t', x)
  {
  }

  lemma TxStepKeepsCursors(r: Ring, t: Tx, x: Rx)
    requires Shapes(r, t, x) && Cursors(r, t, x) && t.pc != TIdle && !TxBlocked(r, t)
    ensures var (r', t') := TxStep(r, t); Cursors(r', t', x)
  {
  }

  lemma StoreKeepsUnread(zone: seq<byte>, sent: seq<byte>, from: nat, b: byte)
    requires |zone| == ZONE_SIZE && from <= |sent| < from + ZONE_SIZE && Unread(zone, sent, from)
    requires Slot(|sent|) < ZONE_SIZE
    ensures Unread(zone[Slot(|sent|) := b], sent + [b], from)
  {
    hide Slot;
    var zone', sent' := zone[Slot(|sent|) := b], sent + [b];
    forall i | from <= i < |sent'| ensures Slot(i) < ZONE_SIZE && zone'[Slot(i)] == sent'[i] {
      SlotInZone(i);
      if i < |sent| { WindowIsInjective(i, |sent|); }
    }
  }

  lemma StoreKeepsBytes(r: Ring, t: Tx, x: Rx)
    requires RingInv(r, t, x) && t.pc == TStore
    ensures var (r', t') := TxStep(r, t); |r'.zone| == ZONE_SIZE && Bytes(r', t', x)
  {
    hide Slot, Unread;
    var (r', t') := TxStep(r, t);
    StoreKeepsUnread(r.zone, r.sent, |r.received|, t.buffer[t.bytes]);
    assert r.received <= r'.sent;
    assert r'.sent[|r'.sent| - Stored(t')..] == r.sent[|r.sent| - Stored(t)..] + [t.buffer[t.bytes]];
  }

  lemma TxStepKeepsBytes(r: Ring, t: Tx, x: Rx)
    requires RingInv(r, t, x) && t.pc != TIdle && !TxBlocked(r, t)
    ensures var (r', t') := TxStep(r, t); |r'.zone| == ZONE_SIZE && Bytes(r', t', x)
  {
    hide EndsWith, Unread, Cursors, Slot;
    if t.pc == TStore { StoreKeepsBytes(r, t, x); }
  }

  lemma TxStepKeepsInv(r: Ring, t: Tx, x: Rx)
    requires RingInv(r, t, x) && t.pc != TIdle && !TxBlocked(r, t)
    ensures var (r', t') := TxStep(r, t); RingInv(r', t', x)
  {
    TxStepKeepsCounts(r, t, x);
    TxStepKeepsCursors(r, t, x);
    TxStepKeepsBytes(r, t, x);
  }

  lemma RxStepKeepsCounts(r: Ring, t: Tx, x: Rx)
    requires Shapes(r, t, x) && Semaphores(r, t, x) && x.pc != RIdle && !RxBlocked(r, x)
    ensures var (r', x') := RxStep(r, x); Shapes(r', t, x') && Semaphores(r', t, x')
  {
  }

  lemma RxStepKeepsCursors(r: Ring, t: Tx, x: Rx)
    requires Shapes(r, t, x) && Cursors(r, t, x) && x.pc != RIdle && !RxBlocked(r, x)
    ensures var (r', x') := RxStep(r, x); Cursors(r', t, x')
  {
  }

  lemma LoadKeepsBytes(r: Ring, t: Tx, x: Rx)
    requires RingInv(r, t, x) && x.pc == RLoad
    ensures var (r', x') := RxStep(r, x); |r'.zone| == ZONE_SIZE && Bytes(r', t, x')
    ensures r.zone[x.rd] == r.sent[|r.received|]
  {
    var (r', x') := RxStep(r, x);
    assert r.zone[x.rd] == r.sent[|r.received|];
    assert r'.received == r.sent[..|r'.received|];
    assert r'.received[|r'.received| - Loaded(x')..] == r.received[|r.received| - Loaded(x)..] + [r.zone[x.rd]];
  }

  lemma RxStepKeepsBytes(r: Ring, t: Tx, x: Rx)
    requires RingInv(r, t, x) && x.pc != RIdle && !RxBlocked(r, x)
    ensures var (r', x') := RxStep(r, x); |r'.zone| == ZONE_SIZE && Bytes(r', t, x')
  {
    hide EndsWith, Unread, Cursors, Slot;
    if x.pc == RLoad { LoadKeepsBytes(r, t, x); }
  }

  lemma RxStepKeepsInv(r: Ring, t: Tx, x: Rx)
    requires RingInv(r, t, x) && x.pc != RIdle && !RxBlocked(r, x)
    ensures var (r', x') := RxStep(r, x); RingInv(r', t, x')
  {
    RxStepKeepsCounts(r, t, x);
    RxStepKeepsCursors(r, t, x);
    RxStepKeepsBytes(r, t, x);
  }

  lemma FreshInv()
    ensures RingInv(FRESH.ring, FRESH.tx, FRESH.rx)
  {
  }

  lemma TxCallKeepsInv(r: Ring, t: Tx, x: Rx, buffer: seq<byte>)
    requires RingInv(r, t, x) && t.pc == TIdle
    ensures RingInv(r, TxCall(t, buffer), x)
  {
    hide Unread, Slot;
  }

  lemma RxCallKeepsInv(r: Ring, t: Tx, x: Rx, buffer: seq<byte>)
    requires RingInv(r, t, x) && x.pc == RIdle
    ensures RingInv(r, t, RxCall(x, buffer))
  {
    hide Unread, Slot;
  }

  lemma InOrder(r: Ring, t: Tx, x: Rx)
    requires RingInv(r, t, x)
    ensures r.received <= r.sent && |r.zone| == ZONE_SIZE && TxShape(t) && RxShape(x)
  {
  }

  // ------------------------------------------------------------ whole runs

  /** Sender and receiver start calls with any buffers, and move in any order. */
  ghost predicate Next(a: Link, b: Link) {
    || (a.tx.pc == TIdle && exists buffer: seq<byte> :: b == a.(tx := TxCall(a.tx, buffer)))
    || (a.rx.pc == RIdle && exists buffer: seq<byte> :: b == a.(rx := RxCall(a.rx, buffer)))
    || (|a.ring.zone| == ZONE_SIZE && TxShape(a.tx) && a.tx.pc != TIdle && !TxBlocked(a.ring, a.tx)
        && var (r, t) := TxStep(a.ring, a.tx); b == Link(r, t, a.rx))
    || (|a.ring.zone| == ZONE_SIZE && RxShape(a.rx) && a.rx.pc != RIdle && !RxBlocked(a.ring, a.rx)
        && var (r, x) := RxStep(a.ring, a.rx); b == Link(r, a.tx, x))
  }

  ghost predicate IsRun(run: seq<Link>) {
    |run| > 0 && run[0] == FRESH && forall i :: 0 <= i < |run| - 1 ==> Next(run[i], run[i + 1])
  }

  lemma NextKeepsInv(a: Link, b: Link)
    requires RingInv(a.ring, a.tx, a.rx) && Next(a, b)
    ensures RingInv(b.ring, b.tx, b.rx)
  {
    hide RingInv;
    InOrder(a.ring, a.tx, a.rx);
    if buffer: seq<byte> :| a.tx.pc == TIdle && b == a.(tx := TxCall(a.tx, buffer)) {
      TxCallKeepsInv(a.ring, a.tx, a.rx, buffer);
    } else if buffer: seq<byte> :| a.rx.pc == RIdle && b == a.(rx := RxCall(a.rx, buffer)) {
      RxCallKeepsInv(a.ring, a.tx, a.rx, buffer);
    } else if a.tx.pc != TIdle && !TxBlocked(a.ring, a.tx)
              && var (r, t) := TxStep(a.ring, a.tx); b == Link(r, t, a.rx) {
      TxStepKeepsInv(a.ring, a.tx, a.rx);
    } else {
      RxStepKeepsInv(a.ring, a.tx, a.rx);
    }
  }

  lemma {:induction false} EveryRunKeepsInv(run: seq<Link>)
    requires IsRun(run)
    ensures var s := run[|run| - 1]; RingInv(s.ring, s.tx, s.rx)
  {
    if |run| > 1 {
      var before := run[..|run| - 1];
      EveryRunKeepsInv(before);
      NextKeepsInv(run[|run| - 2], run[|run| - 1]);
    }
  }

  /** `n` cells of the zone from `rd` on, wrapping around. */
  function Window(zone: seq<byte>, rd: nat, n: nat): (w: seq<byte>)
    requires |zone| == ZONE_SIZE
    ensures |w| == n
  {
    seq(n, j => zone[Slot(rd + j)])
  }

  lemma WindowIsUnread(r: Ring, rd: nat)
    requires |r.zone| == ZONE_SIZE && r.received <= r.sent && rd == Slot(|r.received|)
    requires Unread(r.zone, r.sent, |r.received|)
    ensures Window(r.zone, rd, |r.sent| - |r.received|) == r.sent[|r.received|..]
  {
    hide Slot;
    var w := Window(r.zone, rd, |r.sent| - |r.received|);
    forall j | 0 <= j < |w| ensures w[j] == r.sent[|r.received|..][j] {
      var i := |r.received| + j;
      SlotFromSlot(|r.received|, j);
    }
  }

  /** 1 while a cell has been read and the reader's cursor is still at it. */
  function Ahead(x: Rx): nat {
    if x.pc == RAdvance then 1 else 0
  }

  /** What the invariant says of the shared memory itself, in every reachable state. */
  lemma RingSafety(run: seq<Link>)
    requires IsRun(run)
    ensures var s := run[|run| - 1]; var r := s.ring;
      && |r.zone| == ZONE_SIZE
      && r.received <= r.sent
      && |r.sent| - |r.received| <= 32
      && r.free + r.available + TxHeld(s.tx) + RxHeld(s.rx) == 32
      && Window(r.zone, Slot(s.rx.rd + Ahead(s.rx)), |r.sent| - |r.received|) == r.sent[|r.received|..]
      && (s.tx.pc == TStore ==> forall i :: |r.received| <= i < |r.sent| ==> Slot(i) != s.tx.wr)
  {
    EveryRunKeepsInv(run);
    var s := run[|run| - 1];
    var r := s.ring;
    SlotFromSlot(|r.received| - Ahead(s.rx), Ahead(s.rx));
    WindowIsUnread(r, Slot(s.rx.rd + Ahead(s.rx)));
    if s.tx.pc == TStore {
      forall i | |r.received| <= i < |r.sent| ensures Slot(i) != s.tx.wr {
        WindowIsInjective(i, |r.sent|);
      }
    }
  }

  // ------------------------------------------- refinement of a bounded queue

  /** The bytes on their way: the abstract queue. */
  function Queue(r: Ring): seq<byte>
    requires r.received <= r.sent
  {
    r.sent[|r.received|..]
  }

  /** The specification: a first-in first-out queue of at most 32 bytes. */
  datatype Event = Quiet | Enqueue(b: byte) | Dequeue(b: byte)

  ghost predicate QueueStep(q: seq<byte>, e: Event, q': seq<byte>) {
    match e
    case Quiet => q' == q
    case Enqueue(b) => |q| < ZONE_SIZE && q' == q + [b]
    case Dequeue(b) => |q| > 0 && b == q[0] && q' == q[1..]
  }

  function TxEvent(t: Tx): Event
    requires TxShape(t)
  {
    if t.pc == TStore then Enqueue(t.buffer[t.bytes]) else Quiet
  }

  function RxEvent(r: Ring, x: Rx): Event
    requires |r.zone| == ZONE_SIZE && RxShape(x)
  {
    if x.pc == RLoad then Dequeue(r.zone[x.rd]) else Quiet
  }

  /** A byte enters the queue when the sender writes its cell, and only while there is room. */
  lemma SenderRefinesQueue(r: Ring, t: Tx, x: Rx)
    requires RingInv(r, t, x) && t.pc != TIdle && !TxBlocked(r, t)
    ensures var (r', t') := TxStep(r, t);
      r'.received <= r'.sent && QueueStep(Queue(r), TxEvent(t), Queue(r'))
  {
    hide Cursors, EndsWith, Unread;
    var (r', t') := TxStep(r, t);
    if t.pc == TStore {
      assert Queue(r') == Queue(r) + [t.buffer[t.bytes]];
    }
  }

  /** The oldest byte leaves the queue when the receiver reads its cell into the caller's buffer. */
  lemma ReceiverRefinesQueue(r: Ring, t: Tx, x: Rx)
    requires RingInv(r, t, x) && x.pc != RIdle && !RxBlocked(r, x)
    ensures var (r', x') := RxStep(r, x);
      && r'.received <= r'.sent && QueueStep(Queue(r), RxEvent(r, x), Queue(r'))
      && (x.pc == RLoad ==> x'.buffer == x.buffer[x.bytes := RxEvent(r, x).b])
  {
    if x.pc == RLoad { LoadKeepsBytes(r, t, x); }
    hide Cursors, EndsWith, Unread;
    var (r', x') := RxStep(r, x);
    if x.pc == RLoad {
      assert Queue(r') == Queue(r)[1..];
    }
  }
}
