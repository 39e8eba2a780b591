/**
 The same ring in place: the bytes of the mapped segment, the two semaphores and the two
 cursors as they are written by `transport_send` and `transport_recv`, with a scheduler
 that chooses whose line runs next.
 */
module Segment {
  import opened Words
  import opened Shmem
  import opened Exchange

  class Half {
    const zone: array<byte>
    var free: nat
    var available: nat
    var txPc: TxPc
    var wr: nat
    var txBuffer: array<byte>
    var txBytes: nat
    var rxPc: RxPc
    var rd: nat
    var rxBuffer: array<byte>
    var rxBytes: nat
    ghost var sent: seq<byte>
    ghost var received: seq<byte>

    ghost predicate Valid()
      reads this
    {
      zone.Length == ZONE_SIZE && zone != txBuffer && zone != rxBuffer && txBuffer != rxBuffer
    }

    ghost function Shared(): Ring
      reads this, zone
    {
      Ring(zone[..], free, available, sent, received)
    }

    ghost function Sender(): Tx
      reads this, txBuffer
    {
      Tx(txPc, wr, txBuffer[..], txBytes)
    }

    ghost function Receiver(): Rx
      reads this, rxBuffer
    {
      Rx(rxPc, rd, rxBuffer[..], rxBytes)
    }

    /** `_shm_setup_locks` on fresh semaphores, and a fresh segment. */
    constructor ()
      ensures Valid() && fresh(zone) && Link(Shared(), Sender(), Receiver()) == FRESH
    {
      zone := new byte[ZONE_SIZE](_ => 0);
      free, available := ZONE_SIZE, 0;
      txPc, wr, txBytes := TIdle, 0, 0;
      rxPc, rd, rxBytes := RIdle, 0, 0;
      sent, received := [], [];
      txBuffer, rxBuffer := new byte[0], new byte[0];
      new;
      assert zone[..] == Zeros(ZONE_SIZE) && txBuffer[..] == [] && rxBuffer[..] == [];
    }

    predicate SenderMayMove()
      reads this
    {
      txPc != TIdle && (txPc == TTop && txBytes < txBuffer.Length ==> free > 0)
    }

    predicate ReceiverMayMove()
      reads this
    {
      rxPc != RIdle && (rxPc == RTop && rxBytes < rxBuffer.Length ==> available > 0)
    }

    /** The next line of `transport_send`. */
    method SendStep()
      requires Valid() && SenderMayMove() && TxShape(Sender())
      modifies this`free, this`available, this`txPc, this`wr, this`txBytes, this`sent, zone
      ensures Valid() && Receiver() == old(Receiver()) && txBuffer[..] == old(txBuffer[..])
      ensures |old(Shared()).zone| == ZONE_SIZE && !TxBlocked(old(Shared()), old(Sender()))
      ensures (Shared(), Sender()) == TxStep(old(Shared()), old(Sender()))
    {
      match txPc
      case TTop =>
        if txBytes < txBuffer.Length {
          free := free - 1;
          txPc := TStore;
        } else {
          txPc := TIdle;
        }
      case TStore =>
        sent := sent + [txBuffer[txBytes]];
        zone[wr] := txBuffer[txBytes];
        txPc := TAdvance;
      case TAdvance =>
        wr := (wr + 1) % ZONE_SIZE;
        txPc := TCount;
      case TCount =>
        txBytes := txBytes + 1;
        txPc := TPost;
      case TPost =>
        available := available + 1;
        txPc := TTop;
    }

    /** The next line of `transport_recv`. */
    method ReceiveStep()
      requires Valid() && ReceiverMayMove() && RxShape(Receiver())
      modifies this`free, this`available, this`rxPc, this`rd, this`rxBytes, this`received, rxBuffer
      ensures Valid() && Sender() == old(Sender()) && zone[..] == old(zone[..])
      ensures |old(Shared()).zone| == ZONE_SIZE && !RxBlocked(old(Shared()), old(Receiver()))
      ensures (Shared(), Receiver()) == RxStep(old(Shared()), old(Receiver()))
    {
      match rxPc
      case RTop =>
        if rxBytes < rxBuffer.Length {
          available := available - 1;
          rxPc := RLoad;
        } else {
          rxPc := RIdle;
        }
      case RLoad =>
        received := received + [zone[rd]];
        rxBuffer[rxBytes] := zone[rd];
        rxPc := RAdvance;
      case RAdvance =>
        rd := (rd + 1) % ZONE_SIZE;
        rxPc := RCount;
      case RCount =>
        rxBytes := rxBytes + 1;
        rxPc := RPost;
      case RPost =>
        free := free + 1;
        rxPc := RTop;
    }

    /** One call of `transport_send` and one of `transport_recv` of the same size, of any
        size, on an empty ring.  Whatever the scheduler does, both calls return, the
        receiver has the sender's bytes, and the ring is empty again. */
    method Transfer(data: array<byte>, buffer: array<byte>, schedule: nat -> bool)
      requires Valid() && RingInv(Shared(), Sender(), Receiver()) && txPc == TIdle && rxPc == RIdle && sent == received
      requires data != buffer && data != zone && buffer != zone && data.Length == buffer.Length
      modifies this, zone, buffer
      ensures Valid() && RingInv(Shared(), Sender(), Receiver())
      ensures txPc == TIdle && rxPc == RIdle && AtRest(Shared(), Sender(), Receiver())
      ensures buffer[..] == data[..] && sent == old(sent) + data[..] && data[..] == old(data[..])
    {
      hide RingInv, TxStep, RxStep, TxShape, RxShape, TxWork, RxWork, AtRest;
      ghost var was := sent;
      TxCallKeepsInv(Shared(), Sender(), Receiver(), data[..]);
      RxCallKeepsInv(Shared(), TxCall(Sender(), data[..]), Receiver(), buffer[..]);
      txPc, txBuffer, txBytes := TTop, data, 0;
      rxPc, rxBuffer, rxBytes := RTop, buffer, 0;
      TransferStarts(Shared(), Sender(), Receiver(), was);
      var n := 0;
      while SenderMayMove() || ReceiverMayMove()
        invariant Valid() && RingInv(Shared(), Sender(), Receiver())
        invariant txBuffer == data && rxBuffer == buffer && data[..] == old(data[..])
        invariant Transferring(Shared(), Sender(), Receiver(), was)
        decreases TxWork(Sender()) + RxWork(Receiver())
      {
        ghost var r, t, x := Shared(), Sender(), Receiver();
        InOrder(r, t, x);
        CallSteps(r, t, x);
        if SenderMayMove() && (schedule(n) || !ReceiverMayMove()) {
          SendStep();
          TxStepKeepsInv(r, t, x);
          SenderTransfers(r, t, x, was);
        } else {
          ReceiveStep();
          RxStepKeepsInv(r, t, x);
          ReceiverTransfers(r, t, x, was);
        }
        InOrder(Shared(), Sender(), Receiver());
        CallSteps(Shared(), Sender(), Receiver());
        n := n + 1;
      }
      TransferEnds(Shared(), Sender(), Receiver(), was);
    }
  }

  /** How far the two calls have come since the ring held nothing after `was`. */
  ghost predicate Transferring(r: Ring, t: Tx, x: Rx, was: seq<byte>) {
    && Stored(t) <= |t.buffer| && Loaded(x) <= |x.buffer| && |t.buffer| == |x.buffer|
    && r.sent == was + t.buffer[..Stored(t)]
    && r.received == was + x.buffer[..Loaded(x)]
    && TxBusyOrDone(t) && RxBusyOrDone(x)
  }

  lemma TransferStarts(r: Ring, t: Tx, x: Rx, was: seq<byte>)
    requires r.sent == r.received == was && t.pc == TTop && x.pc == RTop && t.bytes == x.bytes == 0
    requires |t.buffer| == |x.buffer|
    ensures Transferring(r, t, x, was)
  {
  }

  lemma SenderTransfers(r: Ring, t: Tx, x: Rx, was: seq<byte>)
    requires |r.zone| == ZONE_SIZE && TxShape(t) && t.pc != TIdle && !TxBlocked(r, t) && Transferring(r, t, x, was)
    ensures var (r', t') := TxStep(r, t); Transferring(r', t', x, was)
  {
  }

  lemma ReceiverTransfers(r: Ring, t: Tx, x: Rx, was: seq<byte>)
    requires |r.zone| == ZONE_SIZE && RxShape(x) && x.pc != RIdle && !RxBlocked(r, x) && Transferring(r, t, x, was)
    ensures var (r', x') := RxStep(r, x); Transferring(r', t, x', was)
  {
  }

  /** When neither side can move both calls are over and the bytes have arrived. */
  lemma TransferEnds(r: Ring, t: Tx, x: Rx, was: seq<byte>)
    requires RingInv(r, t, x) && Transferring(r, t, x, was)
    requires (t.pc == TIdle || TxBlocked(r, t)) && (x.pc == RIdle || RxBlocked(r, x))
    ensures t.pc == TIdle && x.pc == RIdle && AtRest(r, t, x)
    ensures x.buffer == t.buffer && r.sent == was + t.buffer
  {
    hide Unread, EndsWith;
    BlockedRing(r, t, x);
    assert |r.sent| == |was| + Stored(t) && |r.received| == |was| + Loaded(x);
    EmptyRing(r, t, x);
    assert r.sent[|was|..] == t.buffer && r.received[|was|..] == x.buffer;
  }
}
