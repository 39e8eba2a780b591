/**
 A client looping over `atc_request` and a server child looping over `atc_reply`,
 each advancing one source line at a time over two rings, in any interleaving.
 Frames are 64 bytes and rings hold 32, so every message takes both sides.
 */
module Exchange {
  import opened Words
  import opened Shmem
  import opened Serialize

  /** One reply as the server sends it: an 8-byte header, then 64-byte frames.
      `hangUp` is the handler's -1, after which the child closes the connection. */
  datatype Reply = Reply(chunks: seq<seq<byte>>, hangUp: bool)

  datatype Turn = Turn(request: seq<byte>, reply: Reply)

  /** The server's answer to the last of the requests it has read so far. */
  type Handler = seq<seq<byte>> -> Reply

  datatype ClientPc = CIdle | CSending | CReading
  datatype Client = Client(pc: ClientPc, tx: Tx, rx: Rx, turn: nat, got: seq<seq<byte>>, log: seq<seq<seq<byte>>>)

  datatype ServerPc = SReading | SWriting | SClosed
  datatype Server = Server(pc: ServerPc, tx: Tx, rx: Rx, received: seq<seq<byte>>, reply: Reply, chunk: nat)

  /** `up` carries requests (the CLI half of the segment), `down` replies (the SRV half). */
  datatype System = System(up: Ring, down: Ring, c: Client, s: Server)

  const START: System :=
    System(FRESH.ring, FRESH.ring,
           Client(CIdle, FRESH.tx, FRESH.rx, 0, [], []),
           Server(SReading, FRESH.tx, RxCall(FRESH.rx, Zeros(MSG_LEN)), [], Reply([], false), 0))

  // ---------------------------------------------------------------- steps

  predicate Shaped(y: System) {
    && |y.up.zone| == ZONE_SIZE && |y.down.zone| == ZONE_SIZE
    && TxShape(y.c.tx) && RxShape(y.c.rx) && TxShape(y.s.tx) && RxShape(y.s.rx)
    && (y.c.pc == CReading && y.c.rx.pc == RIdle ==> |(y.c.got + [y.c.rx.buffer])[0]| == HEADER_LEN)
    && (y.s.pc == SWriting ==> y.s.chunk < |y.s.reply.chunks|)
  }

  predicate ClientBlocked(y: System) {
    TxBlocked(y.up, y.c.tx) || RxBlocked(y.down, y.c.rx)
  }

  /** Nothing left to ask. */
  predicate ClientDone(requests: seq<seq<byte>>, y: System) {
    y.c.pc == CIdle && y.c.tx.pc == TIdle && y.c.rx.pc == RIdle && y.c.turn >= |requests|
  }

  predicate ServerBlocked(y: System) {
    TxBlocked(y.down, y.s.tx) || RxBlocked(y.up, y.s.rx)
  }

  predicate ServerDone(y: System) {
    y.s.pc == SClosed && y.s.tx.pc == TIdle && y.s.rx.pc == RIdle
  }

  /** `atc_request`: send one frame, read a header, read as many frames as it announces. */
  function ClientTurn(requests: seq<seq<byte>>, c: Client): Client
    requires c.pc == CIdle ==> c.turn < |requests|
    requires c.pc == CReading ==> |(c.got + [c.rx.buffer])[0]| == HEADER_LEN
  {
    match c.pc
    case CIdle => c.(pc := CSending, tx := TxCall(c.tx, requests[c.turn]))
    case CSending => c.(pc := CReading, got := [], rx := RxCall(c.rx, Zeros(HEADER_LEN)))
    case CReading =>
      var got := c.got + [c.rx.buffer];
      if |got| < 1 + FrameCount(got[0])
      then c.(got := got, rx := RxCall(c.rx, Zeros(MSG_LEN)))
      else c.(pc := CIdle, turn := c.turn + 1, got := [], log := c.log + [got])
  }

  function ClientStep(requests: seq<seq<byte>>, y: System): System
    requires Shaped(y) && !ClientBlocked(y) && !ClientDone(requests, y)
  {
    if y.c.tx.pc != TIdle then
      var (r, t) := TxStep(y.up, y.c.tx);
      y.(up := r, c := y.c.(tx := t))
    else if y.c.rx.pc != RIdle then
      var (r, x) := RxStep(y.down, y.c.rx);
      y.(down := r, c := y.c.(rx := x))
    else y.(c := ClientTurn(requests, y.c))
  }

  /** `atc_reply`: read one frame, let the handler answer, send the chunks one by one. */
  function ServerTurn(handler: Handler, s: Server): Server
    requires s.pc != SClosed && (s.pc == SWriting ==> s.chunk < |s.reply.chunks|)
  {
    match s.pc
    case SReading =>
      var received := s.received + [s.rx.buffer];
      var reply := handler(received);
      s.(pc := SWriting, received := received, reply := reply, chunk := 0,
         tx := if reply.chunks == [] then s.tx else TxCall(s.tx, reply.chunks[0]))
    case SWriting =>
      if s.chunk + 1 < |s.reply.chunks|
      then s.(chunk := s.chunk + 1, tx := TxCall(s.tx, s.reply.chunks[s.chunk + 1]))
      else if s.reply.hangUp then s.(pc := SClosed)
      else s.(pc := SReading, rx := RxCall(s.rx, Zeros(MSG_LEN)))
  }

  function ServerStep(handler: Handler, y: System): System
    requires Shaped(y) && !ServerBlocked(y) && !ServerDone(y)
  {
    if y.s.tx.pc != TIdle then
      var (r, t) := TxStep(y.down, y.s.tx);
      y.(down := r, s := y.s.(tx := t))
    else if y.s.rx.pc != RIdle then
      var (r, x) := RxStep(y.up, y.s.rx);
      y.(up := r, s := y.s.(rx := x))
    else y.(s := ServerTurn(handler, y.s))
  }

  ghost predicate Next(requests: seq<seq<byte>>, handler: Handler, y: System, z: System) {
    && Shaped(y)
    && ((!ClientBlocked(y) && !ClientDone(requests, y) && z == ClientStep(requests, y))
        || (!ServerBlocked(y) && !ServerDone(y) && z == ServerStep(handler, y)))
  }

  /** Neither side can take a step. */
  ghost predicate Halted(requests: seq<seq<byte>>, handler: Handler, y: System) {
    !exists z :: Next(requests, handler, y, z)
  }

  // ------------------------------------------------------- byte streams

  function Concat(parts: seq<seq<byte>>): seq<byte> {
    if parts == [] then [] else Concat(parts[..|parts| - 1]) + parts[|parts| - 1]
  }

  lemma ConcatNone(parts: seq<seq<byte>>)
    ensures Concat(parts[..0]) == []
  {
    assert parts[..0] == [];
  }

  lemma ConcatNext(parts: seq<seq<byte>>, i: nat)
    requires i < |parts|
    ensures Concat(parts[..i + 1]) == Concat(parts[..i]) + parts[i]
  {
    assert parts[..i + 1][..i] == parts[..i];
  }

  lemma {:induction false} ConcatPrefix(parts: seq<seq<byte>>, i: nat)
    requires i <= |parts|
    ensures Concat(parts[..i]) <= Concat(parts)
    decreases |parts| - i
  {
    if i == |parts| {
      assert parts[..i] == parts;
    } else {
      ConcatPrefix(parts, i + 1);
      ConcatNext(parts, i);
    }
  }

  /** Reading the right number of bytes at the start of a part gives that part. */
  lemma PartAt(parts: seq<seq<byte>>, i: nat, stream: seq<byte>, part: seq<byte>)
    requires i < |parts| && Concat(parts[..i]) + part <= stream <= Concat(parts)
    requires |part| <= |parts[i]|
    ensures part <= parts[i]
  {
    ConcatPrefix(parts, i + 1);
    ConcatNext(parts, i);
    var at := |Concat(parts[..i])|;
    forall j | 0 <= j < |part| ensures part[j] == parts[i][j] {
      assert (Concat(parts[..i]) + part)[at + j] == Concat(parts)[at + j] == (Concat(parts[..i]) + parts[i])[at + j];
    }
  }

  lemma {:induction false} PositionsIncrease(parts: seq<seq<byte>>, i: nat, j: nat)
    requires i <= j <= |parts| && forall k :: 0 <= k < |parts| ==> |parts[k]| > 0
    ensures |Concat(parts[..i])| <= |Concat(parts[..j])|
    ensures i < j ==> |Concat(parts[..i])| + |parts[i]| <= |Concat(parts[..j])|
  {
    if i < j {
      PositionsIncrease(parts, i, j - 1);
      ConcatNext(parts, j - 1);
    }
  }

  // ---------------------------------------------------------- invariant

  /** The plan of a conversation: each request with the answer the handler gives it.
      Frames have their fixed sizes, a header announces the frames that follow it, and
      nothing is asked after the connection is closed. */
  ghost predicate WellFormed(plan: seq<Turn>) {
    forall k :: 0 <= k < |plan| ==>
      && |plan[k].request| == MSG_LEN
      && ReplyShape(plan[k].reply.chunks)
      && (plan[k].reply.hangUp ==> k == |plan| - 1)
  }

  ghost predicate ReplyShape(chunks: seq<seq<byte>>) {
    && |chunks| > 0 && |chunks[0]| == HEADER_LEN
    && (forall i :: 1 <= i < |chunks| ==> |chunks[i]| == MSG_LEN)
    && |chunks| == 1 + FrameCount(chunks[0])
  }

  function Requests(plan: seq<Turn>): (u: seq<seq<byte>>)
    ensures |u| == |plan| && forall k :: 0 <= k < |plan| ==> u[k] == plan[k].request
  {
    seq(|plan|, k requires 0 <= k < |plan| => plan[k].request)
  }

  function Replies(plan: seq<Turn>): (r: seq<seq<byte>>)
    ensures |r| == |plan| && forall k :: 0 <= k < |plan| ==> r[k] == Concat(plan[k].reply.chunks)
  {
    seq(|plan|, k requires 0 <= k < |plan| => Concat(plan[k].reply.chunks))
  }

  ghost predicate Answers(handler: Handler, plan: seq<Turn>) {
    forall k :: 0 <= k < |plan| ==> handler(Requests(plan)[..k + 1]) == plan[k].reply
  }

  ghost predicate TxBusyOrDone(t: Tx) {
    t.pc == TIdle ==> t.bytes == |t.buffer|
  }

  ghost predicate RxBusyOrDone(x: Rx) {
    x.pc == RIdle ==> x.bytes == |x.buffer|
  }

  ghost predicate Logged(plan: seq<Turn>, c: Client) {
    c.turn <= |plan| && |c.log| == c.turn && forall k :: 0 <= k < c.turn ==> c.log[k] == plan[k].reply.chunks
  }

  ghost predicate ClientControl(plan: seq<Turn>, c: Client) {
    && Logged(plan, c)
    && (c.pc != CIdle ==> c.turn < |plan|)
    && match c.pc
       case CIdle => c.tx.pc == TIdle && c.rx.pc == RIdle
       case CSending => c.rx.pc == RIdle && c.tx.buffer == plan[c.turn].request && TxBusyOrDone(c.tx)
       case CReading =>
         var chunks := plan[c.turn].reply.chunks;
         && c.tx.pc == TIdle && |c.got| < |chunks| && c.got == chunks[..|c.got|]
         && |c.rx.buffer| == |chunks[|c.got|]| && RxBusyOrDone(c.rx)
  }

  /** The part of the current request that is in the ring. */
  function Asked(plan: seq<Turn>, c: Client): seq<byte>
    requires c.pc != CIdle ==> c.turn < |plan|
    requires c.pc == CSending ==> Stored(c.tx) <= |c.tx.buffer|
  {
    match c.pc
    case CIdle => []
    case CSending => c.tx.buffer[..Stored(c.tx)]
    case CReading => plan[c.turn].request
  }

  /** The part of the current reply that the client has taken. */
  function Heard(c: Client): seq<byte>
    requires c.pc == CReading ==> Loaded(c.rx) <= |c.rx.buffer|
  {
    if c.pc == CReading then Concat(c.got) + c.rx.buffer[..Loaded(c.rx)] else []
  }

  ghost predicate ClientBytes(plan: seq<Turn>, asked: seq<byte>, heard: seq<byte>, c: Client) {
    && (c.pc != CIdle ==> c.turn < |plan|) && c.turn <= |plan|
    && Stored(c.tx) <= |c.tx.buffer| && Loaded(c.rx) <= |c.rx.buffer|
    && asked == Concat(Requests(plan)[..c.turn]) + Asked(plan, c)
    && heard == Concat(Replies(plan)[..c.turn]) + Heard(c)
  }

  ghost predicate ServerControl(plan: seq<Turn>, s: Server) {
    && |s.received| <= |plan| && s.received == Requests(plan)[..|s.received|]
    && match s.pc
       case SReading =>
         && s.tx.pc == TIdle && |s.rx.buffer| == MSG_LEN && RxBusyOrDone(s.rx)
         && (|s.received| > 0 ==> !plan[|s.received| - 1].reply.hangUp)
       case SWriting =>
         && s.rx.pc == RIdle && |s.received| > 0 && s.reply == plan[|s.received| - 1].reply
         && s.chunk < |s.reply.chunks| && s.tx.buffer == s.reply.chunks[s.chunk] && TxBusyOrDone(s.tx)
       case SClosed =>
         && s.tx.pc == TIdle && s.rx.pc == RIdle && |s.received| == |plan| > 0
         && plan[|plan| - 1].reply.hangUp
  }

  /** Replies that are entirely in the ring. */
  function Answered(s: Server): nat
    requires s.pc == SWriting ==> |s.received| > 0
  {
    if s.pc == SWriting then |s.received| - 1 else |s.received|
  }

  function Said(s: Server): seq<byte>
    requires s.pc == SWriting ==> s.chunk < |s.reply.chunks| && Stored(s.tx) <= |s.tx.buffer|
  {
    if s.pc == SWriting then Concat(s.reply.chunks[..s.chunk]) + s.tx.buffer[..Stored(s.tx)] else []
  }

  ghost predicate ServerBytes(plan: seq<Turn>, taken: seq<byte>, said: seq<byte>, s: Server) {
    && |s.received| <= |plan| && Stored(s.tx) <= |s.tx.buffer| && Loaded(s.rx) <= |s.rx.buffer|
    && (s.pc == SWriting ==> |s.received| > 0 && s.chunk < |s.reply.chunks|)
    && taken == Concat(Requests(plan)[..|s.received|])
                      + (if s.pc == SReading then s.rx.buffer[..Loaded(s.rx)] else [])
    && said == Concat(Replies(plan)[..Answered(s)]) + Said(s)
  }

  ghost predicate Inv(plan: seq<Turn>, y: System) {
    && RingInv(y.up, y.c.tx, y.s.rx)
    && RingInv(y.down, y.s.tx, y.c.rx)
    && ClientControl(plan, y.c) && ClientBytes(plan, y.up.sent, y.down.received, y.c)
    && ServerControl(plan, y.s) && ServerBytes(plan, y.up.received, y.down.sent, y.s)
  }

  lemma StartRings()
    ensures RingInv(START.up, START.c.tx, START.s.rx)
    ensures RingInv(START.down, START.s.tx, START.c.rx)
  {
    FreshInv();
    RxCallKeepsInv(FRESH.ring, FRESH.tx, FRESH.rx, Zeros(MSG_LEN));
    hide RingInv;
  }

  lemma StartClient(plan: seq<Turn>)
    ensures ClientControl(plan, START.c) && ClientBytes(plan, START.up.sent, START.down.received, START.c)
  {
    hide Requests, Replies, Concat;
    ConcatNone(Requests(plan));
    ConcatNone(Replies(plan));
  }

  lemma StartServer(plan: seq<Turn>)
    ensures ServerControl(plan, START.s) && ServerBytes(plan, START.up.received, START.down.sent, START.s)
  {
    hide Requests, Replies, Concat;
    ConcatNone(Requests(plan));
    ConcatNone(Replies(plan));
  }

  lemma StartInv(plan: seq<Turn>)
    ensures Inv(plan, START)
  {
    hide RingInv, ClientControl, ClientBytes, ServerControl, ServerBytes;
    StartRings();
    StartClient(plan);
    StartServer(plan);
  }

  lemma InvIsShaped(plan: seq<Turn>, y: System)
    requires WellFormed(plan) && Inv(plan, y)
    ensures Shaped(y)
  {
    hide Concat, Requests, Replies, RingInv, ClientBytes, ServerBytes;
    InOrder(y.up, y.c.tx, y.s.rx);
    InOrder(y.down, y.s.tx, y.c.rx);
    if y.c.pc == CReading && y.c.got != [] {
      assert y.c.got[0] == plan[y.c.turn].reply.chunks[0];
    }
  }

  /** Everything the server will ever send is what the plan says. */
  lemma RepliesOnPlan(plan: seq<Turn>, down: Ring, up: Ring, s: Server)
    requires ServerControl(plan, s) && ServerBytes(plan, up.received, down.sent, s)
    ensures down.sent <= Concat(Replies(plan))
  {
    hide Concat, Requests, Replies;
    if s.pc == SWriting {
      var t := |s.received| - 1;
      ConcatNext(s.reply.chunks, s.chunk);
      ConcatPrefix(s.reply.chunks, s.chunk + 1);
      ConcatNext(Replies(plan), t);
      ConcatPrefix(Replies(plan), t + 1);
      assert Said(s) <= Concat(s.reply.chunks[..s.chunk + 1]) <= Replies(plan)[t];
    } else {
      ConcatPrefix(Replies(plan), |s.received|);
    }
  }

  lemma RequestsOnPlan(plan: seq<Turn>, down: Ring, up: Ring, c: Client)
    requires ClientControl(plan, c) && ClientBytes(plan, up.sent, down.received, c)
    ensures up.sent <= Concat(Requests(plan))
  {
    hide Concat, Requests, Replies;
    ConcatPrefix(Requests(plan), c.turn);
    if c.pc != CIdle {
      ConcatNext(Requests(plan), c.turn);
      ConcatPrefix(Requests(plan), c.turn + 1);
    }
  }

  /** A chunk the client has finished reading is the chunk the server sent. */
  lemma ChunkArrives(plan: seq<Turn>, y: System)
    requires y.down.received <= y.down.sent <= Concat(Replies(plan))
    requires ClientControl(plan, y.c) && ClientBytes(plan, y.up.sent, y.down.received, y.c)
    requires y.c.pc == CReading && y.c.rx.pc == RIdle
    ensures y.c.rx.buffer == plan[y.c.turn].reply.chunks[|y.c.got|]
  {
    hide Concat, Requests, Replies;
    var c, chunks := y.c, plan[y.c.turn].reply.chunks;
    ConcatNext(chunks, |c.got|);
    ConcatPrefix(chunks, |c.got| + 1);
    PartAt(Replies(plan), c.turn, y.down.received, Heard(c));
    PartAt(chunks, |c.got|, Heard(c), c.rx.buffer);
  }

  /** A request the server has finished reading is the one the client sent. */
  lemma RequestArrives(plan: seq<Turn>, y: System)
    requires y.up.received <= y.up.sent <= Concat(Requests(plan))
    requires forall k :: 0 <= k < |plan| ==> |plan[k].request| == MSG_LEN
    requires ServerControl(plan, y.s) && ServerBytes(plan, y.up.received, y.down.sent, y.s)
    requires y.s.pc == SReading && y.s.rx.pc == RIdle
    ensures |y.s.received| < |plan| && y.s.rx.buffer == plan[|y.s.received|].request
  {
    hide Concat, Requests, Replies;
    var u, m := Requests(plan), |y.s.received|;
    assert u[..|plan|] == u;
    PartAt(u, m, y.up.received, y.s.rx.buffer);
  }

  // ------------------------------------------------- steps keep the invariant

  lemma ClientStepKeepsInv(plan: seq<Turn>, y: System)
    requires WellFormed(plan) && Inv(plan, y) && Shaped(y)
    requires !ClientBlocked(y) && !ClientDone(Requests(plan), y)
    ensures Inv(plan, ClientStep(Requests(plan), y))
  {
    hide RingInv, WellFormed, ServerControl, ClientControl, ClientBytes, ServerBytes, Concat, Requests, Replies;
    if y.c.tx.pc != TIdle {
      TxStepKeepsInv(y.up, y.c.tx, y.s.rx);
      ClientSends(plan, y.up, y.down, y.c);
    } else if y.c.rx.pc != RIdle {
      RxStepKeepsInv(y.down, y.s.tx, y.c.rx);
      ClientReceives(plan, y.up, y.down, y.c);
    } else {
      ClientTurnKeepsInv(plan, y);
    }
  }

  lemma ClientSends(plan: seq<Turn>, up: Ring, down: Ring, c: Client)
    requires ClientControl(plan, c) && ClientBytes(plan, up.sent, down.received, c)
    requires |up.zone| == ZONE_SIZE && TxShape(c.tx) && c.tx.pc != TIdle && !TxBlocked(up, c.tx)
    ensures var (r, t) := TxStep(up, c.tx);
      && ClientControl(plan, c.(tx := t)) && ClientBytes(plan, r.sent, down.received, c.(tx := t))
      && r.received == up.received
  {
    hide Concat, Requests, Replies;
  }

  lemma ClientReceives(plan: seq<Turn>, up: Ring, down: Ring, c: Client)
    requires ClientControl(plan, c) && ClientBytes(plan, up.sent, down.received, c)
    requires |down.zone| == ZONE_SIZE && RxShape(c.rx) && c.rx.pc != RIdle && !RxBlocked(down, c.rx)
    ensures var (r, x) := RxStep(down, c.rx);
      ClientControl(plan, c.(rx := x)) && ClientBytes(plan, up.sent, r.received, c.(rx := x)) && r.sent == down.sent
  {
    hide Concat, Requests, Replies;
  }

  lemma ClientTurnKeepsInv(plan: seq<Turn>, y: System)
    requires WellFormed(plan) && Inv(plan, y) && Shaped(y)
    requires y.c.tx.pc == TIdle && y.c.rx.pc == RIdle && !ClientDone(Requests(plan), y)
    ensures Inv(plan, y.(c := ClientTurn(Requests(plan), y.c)))
  {
    hide RingInv, ServerControl, ServerBytes, Concat, Requests, Replies;
    var c := y.c;
    match c.pc
    case CIdle =>
      TxCallKeepsInv(y.up, c.tx, y.s.rx, Requests(plan)[c.turn]);
    case CSending =>
      RxCallKeepsInv(y.down, y.s.tx, c.rx, Zeros(HEADER_LEN));
      ConcatNext(Requests(plan), c.turn);
      ConcatNone([]);
    case CReading =>
      hide ClientControl, ClientBytes;
      InOrder(y.down, y.s.tx, c.rx);
      RxCallKeepsInv(y.down, y.s.tx, c.rx, Zeros(MSG_LEN));
      RepliesOnPlan(plan, y.down, y.up, y.s);
      ChunkArrives(plan, y);
      ChunkRead(plan, y.up, y.down, c);
  }

  lemma ChunkRead(plan: seq<Turn>, up: Ring, down: Ring, c: Client)
    requires WellFormed(plan) && ClientControl(plan, c) && ClientBytes(plan, up.sent, down.received, c)
    requires c.pc == CReading && c.rx.pc == RIdle && c.rx.buffer == plan[c.turn].reply.chunks[|c.got|]
    ensures |(c.got + [c.rx.buffer])[0]| == HEADER_LEN
    ensures var d := ClientTurn(Requests(plan), c);
      ClientControl(plan, d) && ClientBytes(plan, up.sent, down.received, d)
  {
    hide Concat, Requests, Replies;
    var chunks := plan[c.turn].reply.chunks;
    var got := c.got + [c.rx.buffer];
    assert got == chunks[..|got|];
    ChunkReadBytes(plan, up.sent, down.received, c);
    hide ClientBytes;
  }

  lemma ChunkReadBytes(plan: seq<Turn>, asked: seq<byte>, heard: seq<byte>, c: Client)
    requires ClientBytes(plan, asked, heard, c)
    requires c.pc == CReading && c.rx.pc == RIdle && c.rx.bytes == |c.rx.buffer|
    requires var chunks := plan[c.turn].reply.chunks;
      && |c.got| < |chunks| && c.got + [c.rx.buffer] == chunks[..|c.got| + 1]
      && |chunks[0]| == HEADER_LEN && |chunks| == 1 + FrameCount(chunks[0])
    requires |(c.got + [c.rx.buffer])[0]| == HEADER_LEN
    ensures ClientBytes(plan, asked, heard, ClientTurn(Requests(plan), c))
  {
    hide Concat, Requests, Replies, FrameCount;
    var chunks := plan[c.turn].reply.chunks;
    var got := c.got + [c.rx.buffer];
    assert c.got == got[..|c.got|] == chunks[..|c.got|];
    ConcatNext(chunks, |c.got|);
    ConcatNext(Requests(plan), c.turn);
    ConcatNext(Replies(plan), c.turn);
    if |got| == |chunks| {
      assert got == chunks;
    }
  }

  lemma ServerStepKeepsInv(plan: seq<Turn>, handler: Handler, y: System)
    requires WellFormed(plan) && Answers(handler, plan) && Inv(plan, y) && Shaped(y)
    requires !ServerBlocked(y) && !ServerDone(y)
    ensures Inv(plan, ServerStep(handler, y))
  {
    hide RingInv, WellFormed, ServerControl, ClientControl, ClientBytes, ServerBytes, Concat, Requests, Replies;
    if y.s.tx.pc != TIdle {
      TxStepKeepsInv(y.down, y.s.tx, y.c.rx);
      ServerSends(plan, y.up, y.down, y.s);
    } else if y.s.rx.pc != RIdle {
      RxStepKeepsInv(y.up, y.c.tx, y.s.rx);
      ServerReceives(plan, y.up, y.down, y.s);
    } else {
      ServerTurnKeepsInv(plan, handler, y);
    }
  }

  lemma ServerSends(plan: seq<Turn>, up: Ring, down: Ring, s: Server)
    requires ServerControl(plan, s) && ServerBytes(plan, up.received, down.sent, s)
    requires |down.zone| == ZONE_SIZE && TxShape(s.tx) && s.tx.pc != TIdle && !TxBlocked(down, s.tx)
    ensures var (r, t) := TxStep(down, s.tx);
      && ServerControl(plan, s.(tx := t)) && ServerBytes(plan, up.received, r.sent, s.(tx := t))
      && r.received == down.received
  {
    hide Concat, Requests, Replies;
  }

  lemma ServerReceives(plan: seq<Turn>, up: Ring, down: Ring, s: Server)
    requires ServerControl(plan, s) && ServerBytes(plan, up.received, down.sent, s)
    requires |up.zone| == ZONE_SIZE && RxShape(s.rx) && s.rx.pc != RIdle && !RxBlocked(up, s.rx)
    ensures var (r, x) := RxStep(up, s.rx);
      ServerControl(plan, s.(rx := x)) && ServerBytes(plan, r.received, down.sent, s.(rx := x)) && r.sent == up.sent
  {
    hide Concat, Requests, Replies;
  }

  lemma ServerTurnKeepsInv(plan: seq<Turn>, handler: Handler, y: System)
    requires WellFormed(plan) && Answers(handler, plan) && Inv(plan, y) && Shaped(y)
    requires y.s.tx.pc == TIdle && y.s.rx.pc == RIdle && !ServerDone(y)
    ensures Inv(plan, y.(s := ServerTurn(handler, y.s)))
  {
    hide RingInv, ClientControl, ClientBytes, Concat, Requests, Replies;
    var s := y.s;
    match s.pc
    case SReading =>
      hide ServerControl, ServerBytes;
      InOrder(y.up, y.c.tx, s.rx);
      RequestsOnPlan(plan, y.down, y.up, y.c);
      RequestArrives(plan, y);
      RequestRead(plan, handler, y.up, y.down, s);
      TxCallKeepsInv(y.down, s.tx, y.c.rx, plan[|s.received|].reply.chunks[0]);
    case SWriting =>
      hide ServerControl, ServerBytes;
      RxCallKeepsInv(y.up, y.c.tx, s.rx, Zeros(MSG_LEN));
      if s.chunk + 1 < |s.reply.chunks| {
        TxCallKeepsInv(y.down, s.tx, y.c.rx, s.reply.chunks[s.chunk + 1]);
      }
      ChunkWritten(plan, handler, y.up, y.down, s);
  }

  lemma RequestRead(plan: seq<Turn>, handler: Handler, up: Ring, down: Ring, s: Server)
    requires WellFormed(plan) && Answers(handler, plan)
    requires ServerControl(plan, s) && ServerBytes(plan, up.received, down.sent, s)
    requires s.pc == SReading && s.rx.pc == RIdle
    requires |s.received| < |plan| && s.rx.buffer == plan[|s.received|].request
    ensures var t := ServerTurn(handler, s);
      && ServerControl(plan, t) && ServerBytes(plan, up.received, down.sent, t)
      && t.tx == TxCall(s.tx, plan[|s.received|].reply.chunks[0]) && t.rx == s.rx
  {
    hide Concat, Requests, Replies;
    var received := s.received + [s.rx.buffer];
    assert received == Requests(plan)[..|received|];
    ConcatNext(Requests(plan), |s.received|);
    ConcatNone(plan[|s.received|].reply.chunks);
  }

  lemma ChunkWritten(plan: seq<Turn>, handler: Handler, up: Ring, down: Ring, s: Server)
    requires WellFormed(plan) && ServerControl(plan, s) && ServerBytes(plan, up.received, down.sent, s)
    requires s.pc == SWriting && s.tx.pc == TIdle
    ensures var t := ServerTurn(handler, s);
      ServerControl(plan, t) && ServerBytes(plan, up.received, down.sent, t)
  {
    hide Concat, Requests, Replies;
    ChunkWrittenBytes(plan, handler, up.received, down.sent, s);
    hide ServerBytes, ReplyShape;
  }

  lemma ChunkWrittenBytes(plan: seq<Turn>, handler: Handler, taken: seq<byte>, said: seq<byte>, s: Server)
    requires ServerBytes(plan, taken, said, s)
    requires s.pc == SWriting && s.tx.bytes == |s.tx.buffer| && s.tx.pc == TIdle
    requires s.tx.buffer == s.reply.chunks[s.chunk] && s.reply == plan[|s.received| - 1].reply
    ensures ServerBytes(plan, taken, said, ServerTurn(handler, s))
  {
    hide Concat, Requests, Replies;
    var chunks := s.reply.chunks;
    ConcatNext(chunks, s.chunk);
    if s.chunk + 1 == |chunks| {
      assert chunks[..|chunks|] == chunks;
      ConcatNext(Replies(plan), |s.received| - 1);
    }
  }

  // ------------------------------------------------- no deadlock

  /** The client has asked everything and the server either waits for a request
      of which it has not seen a byte, or has closed the connection. */
  ghost predicate Finished(plan: seq<Turn>, y: System) {
    && y.c.pc == CIdle && y.c.turn == |plan|
    && (y.s.pc == SReading || y.s.pc == SClosed)
    && |y.s.received| == |plan|
    && (y.s.pc == SReading ==> y.s.rx.pc == RTop && y.s.rx.bytes == 0)
  }

  lemma BlockedRing(r: Ring, t: Tx, x: Rx)
    requires RingInv(r, t, x)
    ensures TxBlocked(r, t) && RxHeld(x) == 0 ==> |r.sent| == |r.received| + ZONE_SIZE
    ensures RxBlocked(r, x) && TxHeld(t) == 0 ==> |r.sent| == |r.received|
    ensures |r.received| <= |r.sent|
  {
  }

  /** How far a client that cannot move has come, in bytes of each stream. */
  lemma StuckClient(plan: seq<Turn>, y: System)
    requires WellFormed(plan) && ClientControl(plan, y.c)
    requires ClientBytes(plan, y.up.sent, y.down.received, y.c)
    requires ClientBlocked(y) || ClientDone(Requests(plan), y)
    ensures var u, r, k := Requests(plan), Replies(plan), y.c.turn;
      match y.c.pc
      case CIdle => k == |plan| && |y.up.sent| == |Concat(u[..k])| && |y.down.received| == |Concat(r[..k])|
      case CSending =>
        && k < |plan| && TxBlocked(y.up, y.c.tx) && y.c.rx.pc == RIdle
        && |y.up.sent| < |Concat(u[..k + 1])| && |y.down.received| == |Concat(r[..k])|
      case CReading =>
        && k < |plan| && RxBlocked(y.down, y.c.rx) && y.c.tx.pc == TIdle
        && |y.up.sent| == |Concat(u[..k + 1])| && |y.down.received| < |Concat(r[..k + 1])|
  {
    hide Concat, Requests, Replies;
    var c := y.c;
    if c.pc != CIdle { ConcatNext(Requests(plan), c.turn); }
    if c.pc == CReading {
      var chunks := plan[c.turn].reply.chunks;
      ConcatNext(Replies(plan), c.turn);
      ConcatNext(chunks, |c.got|);
      ConcatPrefix(chunks, |c.got| + 1);
    }
  }

  lemma StuckServer(plan: seq<Turn>, y: System)
    requires WellFormed(plan) && ServerControl(plan, y.s)
    requires ServerBytes(plan, y.up.received, y.down.sent, y.s)
    requires ServerBlocked(y) || ServerDone(y)
    ensures var u, r, m := Requests(plan), Replies(plan), |y.s.received|;
      match y.s.pc
      case SReading =>
        && RxBlocked(y.up, y.s.rx) && y.s.tx.pc == TIdle && y.s.rx.bytes < MSG_LEN
        && |y.up.received| == |Concat(u[..m])| + y.s.rx.bytes && |y.down.sent| == |Concat(r[..m])|
      case SWriting =>
        && m > 0 && TxBlocked(y.down, y.s.tx) && y.s.rx.pc == RIdle
        && |y.up.received| == |Concat(u[..m])| && |y.down.sent| < |Concat(r[..m])|
      case SClosed =>
        && m == |plan| && y.s.tx.pc == TIdle && y.s.rx.pc == RIdle
        && |y.up.received| == |Concat(u[..m])| && |y.down.sent| == |Concat(r[..m])|
  {
    hide Concat, Requests, Replies;
    var s := y.s;
    if s.pc == SWriting {
      var chunks := s.reply.chunks;
      ConcatNext(Replies(plan), |s.received| - 1);
      ConcatNext(chunks, s.chunk);
      ConcatPrefix(chunks, s.chunk + 1);
    }
  }

  lemma {:induction false} ConcatPositive(chunks: seq<seq<byte>>)
    requires ReplyShape(chunks)
    ensures |Concat(chunks)| > 0
  {
    ConcatNext(chunks, 0);
    ConcatPrefix(chunks, 1);
  }

  /** Order of turns from order of byte positions. */
  lemma TurnOrder(plan: seq<Turn>, i: nat, j: nat)
    requires WellFormed(plan) && i <= |plan| && j <= |plan|
    ensures |Concat(Requests(plan)[..i])| < |Concat(Requests(plan)[..j])| <==> i < j
    ensures |Concat(Replies(plan)[..i])| < |Concat(Replies(plan)[..j])| <==> i < j
    ensures i < j ==> |Concat(Requests(plan)[..i])| + MSG_LEN <= |Concat(Requests(plan)[..j])|
  {
    forall k | 0 <= k < |plan| ensures |Replies(plan)[k]| > 0 {
      ConcatPositive(plan[k].reply.chunks);
    }
    hide Concat, Requests, Replies;
    if i <= j {
      PositionsIncrease(Requests(plan), i, j);
      PositionsIncrease(Replies(plan), i, j);
    } else {
      PositionsIncrease(Requests(plan), j, i);
      PositionsIncrease(Replies(plan), j, i);
    }
  }

  /** Whenever neither side can move, the whole conversation is over: no reachable
      state has client and server waiting for each other. */
  lemma NoDeadlock(plan: seq<Turn>, y: System)
    requires WellFormed(plan) && Inv(plan, y)
    requires ClientBlocked(y) || ClientDone(Requests(plan), y)
    requires ServerBlocked(y) || ServerDone(y)
    ensures Finished(plan, y)
  {
    hide RingInv, ClientControl, ClientBytes, ServerBytes, WellFormed, Concat, Requests, Replies;
    var c, s := y.c, y.s;
    StuckClient(plan, y);
    StuckServer(plan, y);
    BlockedRing(y.up, c.tx, s.rx);
    BlockedRing(y.down, s.tx, c.rx);
    TurnOrder(plan, c.turn, |s.received|);
    TurnOrder(plan, |s.received|, c.turn);
    if c.turn < |plan| {
      TurnOrder(plan, c.turn + 1, |s.received|);
      TurnOrder(plan, |s.received|, c.turn + 1);
    }
  }

  // ------------------------------------------------- termination

  /** Steps left in a call of `transport_send`: five per byte and the return. */
  function TxWork(t: Tx): int {
    var rest := 5 * (|t.buffer| - t.bytes);
    match t.pc
    case TIdle => 0
    case TTop => rest + 1
    case TStore => rest
    case TAdvance => rest - 1
    case TCount => rest - 2
    case TPost => rest + 2
  }

  function RxWork(x: Rx): int {
    var rest := 5 * (|x.buffer| - x.bytes);
    match x.pc
    case RIdle => 0
    case RTop => rest + 1
    case RLoad => rest
    case RAdvance => rest - 1
    case RCount => rest - 2
    case RPost => rest + 2
  }

  /** A whole call, and the step of the caller that starts it. */
  function CallWork(size: nat): nat {
    5 * size + 2
  }

  function ChunksWork(chunks: seq<seq<byte>>, i: nat): nat
    decreases |chunks| - i
  {
    if i >= |chunks| then 0 else CallWork(|chunks[i]|) + ChunksWork(chunks, i + 1)
  }

  function TurnsWork(plan: seq<Turn>, k: nat): nat
    decreases |plan| - k
  {
    if k >= |plan| then 0
    else CallWork(MSG_LEN) + ChunksWork(plan[k].reply.chunks, 0) + TurnsWork(plan, k + 1)
  }

  /** Exactly the number of steps the client still takes. */
  function ClientWork(plan: seq<Turn>, c: Client): int
    requires c.pc != CIdle ==> c.turn < |plan|
  {
    match c.pc
    case CIdle => TurnsWork(plan, c.turn) + |plan| - c.turn
    case CSending =>
      TxWork(c.tx) + 1 + ChunksWork(plan[c.turn].reply.chunks, 0) + TurnsWork(plan, c.turn + 1) + |plan| - c.turn - 1
    case CReading =>
      RxWork(c.rx) + 1 + ChunksWork(plan[c.turn].reply.chunks, |c.got| + 1) + TurnsWork(plan, c.turn + 1)
      + |plan| - c.turn - 1
  }

  /** The same for the server, but for the wait for a request that never comes. */
  function ServerWork(plan: seq<Turn>, s: Server): int
    requires s.pc == SWriting ==> 0 < |s.received| <= |plan|
  {
    var m := |s.received|;
    match s.pc
    case SClosed => 0
    case SReading =>
      RxWork(s.rx) + 1 + (if m >= |plan| then 0
                          else ChunksWork(plan[m].reply.chunks, 0) + TurnsWork(plan, m + 1) + CallWork(MSG_LEN))
    case SWriting =>
      TxWork(s.tx) + 1 + ChunksWork(plan[m - 1].reply.chunks, s.chunk + 1) + TurnsWork(plan, m) + CallWork(MSG_LEN)
  }

  function Work(plan: seq<Turn>, y: System): int
    requires y.c.pc != CIdle ==> y.c.turn < |plan|
    requires y.s.pc == SWriting ==> 0 < |y.s.received| <= |plan|
  {
    ClientWork(plan, y.c) + ServerWork(plan, y.s)
  }

  lemma CallSteps(r: Ring, t: Tx, x: Rx)
    requires |r.zone| == ZONE_SIZE && TxShape(t) && RxShape(x)
    ensures TxWork(t) >= 0 && RxWork(x) >= 0
    ensures t.pc != TIdle && !TxBlocked(r, t) ==> TxWork(TxStep(r, t).1) == TxWork(t) - 1
    ensures x.pc != RIdle && !RxBlocked(r, x) ==> RxWork(RxStep(r, x).1) == RxWork(x) - 1
  {
  }

  lemma ClientWorkDecreases(plan: seq<Turn>, y: System)
    requires WellFormed(plan) && Inv(plan, y) && Shaped(y)
    requires !ClientBlocked(y) && !ClientDone(Requests(plan), y)
    ensures var z := ClientStep(Requests(plan), y);
      (z.c.pc != CIdle ==> z.c.turn < |plan|) && ClientWork(plan, z.c) == ClientWork(plan, y.c) - 1
  {
    hide RingInv, ClientBytes, ServerControl, ServerBytes, Concat, Requests, Replies;
    var c := y.c;
    if c.tx.pc != TIdle {
      CallSteps(y.up, c.tx, c.rx);
      hide TxWork;
    } else if c.rx.pc != RIdle {
      CallSteps(y.down, c.tx, c.rx);
      hide RxWork;
    } else if c.pc == CReading {
      InOrder(y.down, y.s.tx, c.rx);
      RepliesOnPlan(plan, y.down, y.up, y.s);
      ChunkArrives(plan, y);
      var chunks := plan[c.turn].reply.chunks;
      assert c.got + [c.rx.buffer] == chunks[..|c.got| + 1];
    }
  }

  lemma ServerWorkDecreases(plan: seq<Turn>, handler: Handler, y: System)
    requires WellFormed(plan) && Answers(handler, plan) && Inv(plan, y) && Shaped(y)
    requires !ServerBlocked(y) && !ServerDone(y)
    ensures var z := ServerStep(handler, y);
      (z.s.pc == SWriting ==> 0 < |z.s.received| <= |plan|) && ServerWork(plan, z.s) < ServerWork(plan, y.s)
  {
    hide RingInv, ClientControl, ClientBytes, ServerBytes, Concat, Requests, Replies;
    var s := y.s;
    if s.tx.pc != TIdle {
      CallSteps(y.down, s.tx, s.rx);
      hide TxWork;
    } else if s.rx.pc != RIdle {
      CallSteps(y.up, s.tx, s.rx);
      hide RxWork;
    } else {
      ServerTurnDecreases(plan, handler, y);
    }
  }

  lemma ServerTurnDecreases(plan: seq<Turn>, handler: Handler, y: System)
    requires WellFormed(plan) && Answers(handler, plan) && Inv(plan, y) && Shaped(y)
    requires !ServerBlocked(y) && !ServerDone(y) && y.s.tx.pc == TIdle && y.s.rx.pc == RIdle
    ensures var t := ServerTurn(handler, y.s);
      (t.pc == SWriting ==> 0 < |t.received| <= |plan|) && ServerWork(plan, t) < ServerWork(plan, y.s)
  {
    hide RingInv, ClientControl, ClientBytes, ServerBytes, Concat, Requests, Replies;
    var s := y.s;
    if s.pc == SReading {
      hide ServerControl;
      InOrder(y.up, y.c.tx, s.rx);
      RequestsOnPlan(plan, y.down, y.up, y.c);
      RequestArrives(plan, y);
      RequestRead(plan, handler, y.up, y.down, s);
      assert handler(s.received + [s.rx.buffer]) == plan[|s.received|].reply by { NextReply(plan, handler, y); }
    }
  }

  lemma NextReply(plan: seq<Turn>, handler: Handler, y: System)
    requires Answers(handler, plan) && ServerControl(plan, y.s)
    requires |y.s.received| < |plan| && y.s.rx.buffer == plan[|y.s.received|].request
    ensures handler(y.s.received + [y.s.rx.buffer]) == plan[|y.s.received|].reply
  {
    hide Concat, Requests, Replies;
    var received := y.s.received + [y.s.rx.buffer];
    assert received == Requests(plan)[..|received|];
  }

  lemma WorkIsNatural(plan: seq<Turn>, y: System)
    requires WellFormed(plan) && Inv(plan, y) && Shaped(y)
    ensures Work(plan, y) >= 0
  {
    hide RingInv, ClientBytes, ServerBytes, Concat, Requests, Replies;
    CallSteps(y.up, y.c.tx, y.c.rx);
    CallSteps(y.down, y.s.tx, y.s.rx);
    hide TxWork, RxWork;
  }

  // ------------------------------------------------- whole runs

  /** Any interleaving of the two sides, from a fresh connection. */
  ghost predicate IsRun(plan: seq<Turn>, handler: Handler, run: seq<System>) {
    && |run| > 0 && run[0] == START
    && forall i :: 0 <= i < |run| - 1 ==> Next(Requests(plan), handler, run[i], run[i + 1])
  }

  lemma NextKeepsInv(plan: seq<Turn>, handler: Handler, y: System, z: System)
    requires WellFormed(plan) && Answers(handler, plan) && Inv(plan, y)
    requires Next(Requests(plan), handler, y, z)
    ensures Inv(plan, z) && Work(plan, z) < Work(plan, y)
  {
    hide RingInv, WellFormed, ClientBytes, ServerBytes, Concat, Requests, Replies, ClientWork, ServerWork;
    if !ClientBlocked(y) && !ClientDone(Requests(plan), y) && z == ClientStep(Requests(plan), y) {
      ClientStepKeepsInv(plan, y);
      ClientWorkDecreases(plan, y);
      hide ClientControl, ServerControl;
    } else {
      ServerStepKeepsInv(plan, handler, y);
      ServerWorkDecreases(plan, handler, y);
      hide ClientControl, ServerControl;
    }
  }

  /** Every run is shorter than an explicit bound, so the conversation always ends. */
  lemma {:induction false} EveryRunEnds(plan: seq<Turn>, handler: Handler, run: seq<System>)
    requires WellFormed(plan) && Answers(handler, plan) && IsRun(plan, handler, run)
    ensures Inv(plan, run[|run| - 1])
    ensures 0 <= Work(plan, run[|run| - 1]) <= Work(plan, START) - (|run| - 1)
  {
    hide WellFormed, RingInv, ClientBytes, ServerBytes, ClientStep, ServerStep, ClientWork, ServerWork, Concat;
    if |run| == 1 {
      StartInv(plan);
    } else {
      EveryRunEnds(plan, handler, run[..|run| - 1]);
      NextKeepsInv(plan, handler, run[|run| - 2], run[|run| - 1]);
    }
    InvIsShaped(plan, run[|run| - 1]);
    WorkIsNatural(plan, run[|run| - 1]);
  }

  /** Empty zone, all cells free, and the reader's cursor where the writer's is. */
  ghost predicate AtRest(r: Ring, t: Tx, x: Rx) {
    r.sent == r.received && r.free == ZONE_SIZE && r.available == 0 && t.wr == x.rd
  }

  lemma EmptyRing(r: Ring, t: Tx, x: Rx)
    requires RingInv(r, t, x) && |r.sent| == |r.received| && TxHeld(t) == 0 && RxHeld(x) == 0
    ensures AtRest(r, t, x)
  {
  }

  /** Between two exchanges both rings are back in their first state, whatever the
      interleaving was, and client and server agree on how many exchanges there were. */
  lemma StreamsStayInStep(plan: seq<Turn>, y: System)
    requires WellFormed(plan) && Inv(plan, y) && y.c.pc == CIdle
    requires y.s.pc == SClosed || (y.s.pc == SReading && y.s.rx.pc == RTop && y.s.rx.bytes == 0)
    ensures |y.s.received| == y.c.turn
    ensures AtRest(y.up, y.c.tx, y.s.rx) && AtRest(y.down, y.s.tx, y.c.rx)
  {
    var c, s := y.c, y.s;
    hide WellFormed, Concat, Requests, Replies;
    TurnOrder(plan, c.turn, |s.received|);
    TurnOrder(plan, |s.received|, c.turn);
    BlockedRing(y.up, c.tx, s.rx);
    BlockedRing(y.down, s.tx, c.rx);
    SameLengths(plan, y);
    EmptyRing(y.up, c.tx, s.rx);
    EmptyRing(y.down, s.tx, c.rx);
  }

  lemma SameLengths(plan: seq<Turn>, y: System)
    requires ClientControl(plan, y.c) && ServerControl(plan, y.s) && y.c.pc == CIdle
    requires ClientBytes(plan, y.up.sent, y.down.received, y.c) && ServerBytes(plan, y.up.received, y.down.sent, y.s)
    requires y.s.pc == SClosed || (y.s.pc == SReading && y.s.rx.pc == RTop && y.s.rx.bytes == 0)
    requires |y.up.received| <= |y.up.sent| && |y.down.received| <= |y.down.sent|
    requires var u, r, k, m := Requests(plan), Replies(plan), y.c.turn, |y.s.received|;
      && (|Concat(u[..k])| < |Concat(u[..m])| <==> k < m)
      && (|Concat(r[..m])| < |Concat(r[..k])| <==> m < k)
    ensures |y.s.received| == y.c.turn
    ensures |y.up.sent| == |y.up.received| && |y.down.sent| == |y.down.received|
  {
    hide Concat, Requests, Replies;
  }

  /** The main result.  Along every interleaving the client has, for each finished
      exchange, exactly the reply the handler gave to exactly the requests sent so far;
      and when no step is possible any more, every exchange has been finished. */
  lemma ConversationIsFaithful(plan: seq<Turn>, handler: Handler, run: seq<System>)
    requires WellFormed(plan) && Answers(handler, plan) && IsRun(plan, handler, run)
    ensures var y := run[|run| - 1];
      && Shaped(y)
      && y.c.turn <= |plan| && |y.c.log| == y.c.turn
      && (forall k :: 0 <= k < y.c.turn ==> y.c.log[k] == handler(Requests(plan)[..k + 1]).chunks)
      && y.s.received <= Requests(plan)
      && (Halted(Requests(plan), handler, y) ==>
            && Finished(plan, y)
            && (y.s.pc == SClosed <==> plan != [] && plan[|plan| - 1].reply.hangUp)
            && AtRest(y.up, y.c.tx, y.s.rx) && AtRest(y.down, y.s.tx, y.c.rx))
  {
    var y := run[|run| - 1];
    EveryRunEnds(plan, handler, run);
    InvIsShaped(plan, y);
    hide RingInv, WellFormed, ClientBytes, ServerBytes, Concat, Requests, Replies;
    if Halted(Requests(plan), handler, y) {
      UnlessStuckSomeoneMoves(plan, handler, y);
      NoDeadlock(plan, y);
      StreamsStayInStep(plan, y);
    }
  }

  lemma UnlessStuckSomeoneMoves(plan: seq<Turn>, handler: Handler, y: System)
    requires Shaped(y)
    ensures ((ClientBlocked(y) || ClientDone(Requests(plan), y)) && (ServerBlocked(y) || ServerDone(y)))
            || exists z :: Next(Requests(plan), handler, y, z)
  {
    hide Requests;
    if !ClientBlocked(y) && !ClientDone(Requests(plan), y) {
      assert Next(Requests(plan), handler, y, ClientStep(Requests(plan), y));
    } else if !ServerBlocked(y) && !ServerDone(y) {
      assert Next(Requests(plan), handler, y, ServerStep(handler, y));
    }
  }
}
