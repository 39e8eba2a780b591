/**
 Handing out connections: one `int` of shared memory, the semaphores `available`
 and `free` (both starting at 0), a server looping over `transport_accept` and any
 number of clients running `transport_connect`, one source step at a time.  The
 four bytes of the port are copied one by one, so a torn read is expressible.
 */
module Handshake {
  import opened Words

  const PORT_BYTES := 4

  /** Lines 296-302 of `transport_accept`. */
  datatype ServerPc = Writing(at: nat) | Recording | Opening | Posting | Waiting

  /** `port` is the counter, `worker` the port of the connection being accepted, and
      `workers` the ports of the connections opened so far, oldest first. */
  datatype Server = Server(pc: ServerPc, port: nat, worker: nat, workers: seq<nat>)

  /** A client before `sem_trywait`, copying, after the copy, holding its port, or refused. */
  datatype Client = Trying | Copying(local: seq<byte>) | Releasing(local: seq<byte>) | Connected(port: int) | Refused

  /** `served` lists the clients in the order their `sem_trywait` succeeded. */
  datatype System = System(cell: seq<byte>, available: nat, free: nat, server: Server,
                           clients: seq<Client>, served: seq<nat>)

  function Start(clients: nat): System {
    System(Zeros(PORT_BYTES), 0, 0, Server(Writing(0), 0, 0, []), seq(clients, _ => Trying), [])
  }

  // ---------------------------------------------------------------- steps

  predicate ServerMayMove(y: System) {
    && |y.cell| == PORT_BYTES
    && match y.server.pc
       case Writing(at) => at < PORT_BYTES
       case Recording => y.server.port < TWO31 - 1  // `port += 1` overflows beyond
       case Waiting => y.free > 0
       case _ => true
  }

  function ServerStep(y: System): System
    requires ServerMayMove(y)
  {
    var s := y.server;
    match s.pc
    case Writing(at) =>
      y.(cell := y.cell[at := IntBytes(s.port)[at]],
         server := s.(pc := if at + 1 < PORT_BYTES then Writing(at + 1) else Recording))
    case Recording => y.(server := s.(pc := Opening, worker := s.port, port := s.port + 1))
    case Opening => y.(server := s.(pc := Posting, workers := s.workers + [s.worker]))
    case Posting => y.(available := y.available + 1, server := s.(pc := Waiting))
    case Waiting => y.(free := y.free - 1, server := s.(pc := Writing(0)))
  }

  predicate ClientMayMove(y: System, i: nat) {
    && |y.cell| == PORT_BYTES && i < |y.clients|
    && match y.clients[i]
       case Trying => true
       case Copying(local) => |local| < PORT_BYTES
       case Releasing(local) => |local| == PORT_BYTES
       case _ => false
  }

  function ClientStep(y: System, i: nat): System
    requires ClientMayMove(y, i)
  {
    match y.clients[i]
    case Trying =>
      if y.available == 0 then y.(clients := y.clients[i := Refused])
      else y.(available := y.available - 1, clients := y.clients[i := Copying([])], served := y.served + [i])
    case Copying(local) =>
      var more := local + [y.cell[|local|]];
      y.(clients := y.clients[i := if |more| < PORT_BYTES then Copying(more) else Releasing(more)])
    case Releasing(local) =>
      y.(free := y.free + 1, clients := y.clients[i := Connected(BytesInt(local))])
  }

  ghost predicate Next(y: System, z: System) {
    || (ServerMayMove(y) && z == ServerStep(y))
    || (exists i: nat :: ClientMayMove(y, i) && z == ClientStep(y, i))
  }

  ghost predicate IsRun(clients: nat, run: seq<System>) {
    && |run| > 0 && run[0] == Start(clients)
    && forall j :: 0 <= j < |run| - 1 ==> Next(run[j], run[j + 1])
  }

  // ------------------------------------------------------------ invariant

  /** Between a successful `sem_trywait` and `sem_post(free)`. */
  predicate Inside(c: Client) {
    c.Copying? || c.Releasing?
  }

  predicate Admitted(c: Client) {
    Inside(c) || c.Connected?
  }

  /** 1 while the client served last is still between its two semaphore calls. */
  function Reading(y: System): nat {
    if y.served != [] && y.served[|y.served| - 1] < |y.clients| && Inside(y.clients[y.served[|y.served| - 1]])
    then 1 else 0
  }

  /** One token goes around: writer, `available`, reader, `free`, writer. */
  ghost predicate OneToken(y: System) {
    y.available + y.free + Reading(y) == if y.server.pc.Waiting? then 1 else 0
  }

  ghost predicate Ports(y: System) {
    var s := y.server;
    && |y.cell| == PORT_BYTES && s.port < TWO31
    && (s.pc.Writing? ==> s.pc.at < PORT_BYTES && y.cell[..s.pc.at] == IntBytes(s.port)[..s.pc.at])
    && (s.pc.Recording? ==> y.cell == IntBytes(s.port))
    && (s.pc.Opening? || s.pc.Posting? || s.pc.Waiting? ==>
          s.port == s.worker + 1 && y.cell == IntBytes(s.worker))
    && |s.workers| == (if s.pc.Opening? then s.port - 1 else s.port)
    && (forall k :: 0 <= k < |s.workers| ==> s.workers[k] == k)
    && |y.served| == (if s.pc.Opening? || s.pc.Posting? then s.port - 1
                      else if s.pc.Waiting? then s.port - y.available else s.port)
  }

  ghost predicate ServedInOrder(y: System) {
    && (forall k :: 0 <= k < |y.served| ==> y.served[k] < |y.clients| && Admitted(y.clients[y.served[k]]))
    && (forall k, l :: 0 <= k < l < |y.served| ==> y.served[k] != y.served[l])
    && (forall i :: 0 <= i < |y.clients| && Admitted(y.clients[i]) ==> i in y.served)
    && (forall k :: 0 <= k < |y.served| ==>
          match y.clients[y.served[k]]
          case Connected(port) => port == k
          case Copying(local) => k == |y.served| - 1 && |local| < PORT_BYTES && local <= y.cell
          case Releasing(local) => k == |y.served| - 1 && local == y.cell
          case _ => false)
  }

  ghost predicate Inv(y: System) {
    OneToken(y) && Ports(y) && ServedInOrder(y)
  }

  lemma StartInv(clients: nat)
    ensures Inv(Start(clients))
  {
  }

  lemma ServerStepKeepsInv(y: System)
    requires Inv(y) && ServerMayMove(y)
    ensures Inv(ServerStep(y))
  {
    hide IntBytes, BytesInt;
    var z := ServerStep(y);
    assert z.clients == y.clients;
  }

  lemma TryFails(y: System, i: nat)
    requires Inv(y) && i < |y.clients| && y.clients[i].Trying?
    ensures Inv(y.(clients := y.clients[i := Refused]))
  {
    hide IntBytes, BytesInt;
    assert forall k :: 0 <= k < |y.served| ==> y.served[k] != i;
  }

  /** A port on offer has not been taken, so nobody is reading. */
  lemma OfferMeansNoReader(y: System)
    requires Inv(y) && y.available > 0
    ensures forall k :: 0 <= k < |y.served| ==> !Inside(y.clients[y.served[k]])
    ensures y.server.pc.Waiting? && y.available == 1 && y.free == 0
  {
    hide IntBytes, BytesInt;
  }

  lemma TrySucceeds(y: System, i: nat)
    requires Inv(y) && i < |y.clients| && y.clients[i].Trying? && y.available > 0
    ensures Inv(y.(available := y.available - 1, clients := y.clients[i := Copying([])], served := y.served + [i]))
  {
    OfferMeansNoReader(y);
    hide IntBytes, BytesInt;
    assert forall k :: 0 <= k < |y.served| ==> y.served[k] != i;
    var z := y.(available := y.available - 1, clients := y.clients[i := Copying([])], served := y.served + [i]);
    assert z.served[|y.served|] == i;
    ServedOneMore(y, i);
    hide ServedInOrder;
  }

  lemma ServedOneMore(y: System, i: nat)
    requires ServedInOrder(y) && i < |y.clients| && y.clients[i].Trying? && y.available > 0
    requires forall k :: 0 <= k < |y.served| ==> !Inside(y.clients[y.served[k]])
    ensures ServedInOrder(
      y.(available := y.available - 1, clients := y.clients[i := Copying([])], served := y.served + [i]))
  {
    hide IntBytes, BytesInt;
    assert forall k :: 0 <= k < |y.served| ==> y.served[k] != i;
    assert forall j :: j in y.served ==> j in y.served + [i];
  }

  lemma TryKeepsInv(y: System, i: nat)
    requires Inv(y) && ClientMayMove(y, i) && y.clients[i].Trying?
    ensures Inv(ClientStep(y, i))
  {
    hide Inv, IntBytes, BytesInt;
    if y.available == 0 {
      TryFails(y, i);
    } else {
      TrySucceeds(y, i);
    }
  }

  lemma ReaderIsLast(y: System, i: nat)
    requires ServedInOrder(y) && |y.cell| == PORT_BYTES && i < |y.clients| && Inside(y.clients[i])
    ensures y.served != [] && i == y.served[|y.served| - 1]
    ensures y.clients[i].Copying? ==> y.clients[i].local <= y.cell
    ensures y.clients[i].Releasing? ==> y.clients[i].local == y.cell
  {
    hide IntBytes, BytesInt;
    var k :| 0 <= k < |y.served| && y.served[k] == i;
  }

  lemma CopyKeepsInv(y: System, i: nat)
    requires Inv(y) && ClientMayMove(y, i) && y.clients[i].Copying?
    ensures Inv(ClientStep(y, i))
  {
    ReaderIsLast(y, i);
    hide IntBytes, BytesInt;
    var z, local := ClientStep(y, i), y.clients[i].local;
    assert local + [y.cell[|local|]] <= y.cell;
    assert forall k :: 0 <= k < |y.served| - 1 ==> z.clients[y.served[k]] == y.clients[y.served[k]];
  }

  lemma ReleaseKeepsInv(y: System, i: nat)
    requires Inv(y) && ClientMayMove(y, i) && y.clients[i].Releasing?
    ensures Inv(ClientStep(y, i))
  {
    ReaderIsLast(y, i);
    BytesIntOfIntBytes(y.server.worker);
    SignedOfUnsigned(y.server.worker);
    hide IntBytes, BytesInt, Signed;
    var z := ClientStep(y, i);
    assert forall k :: 0 <= k < |y.served| - 1 ==> z.clients[y.served[k]] == y.clients[y.served[k]];
  }

  lemma NextKeepsInv(y: System, z: System)
    requires Inv(y) && Next(y, z)
    ensures Inv(z) && |z.clients| == |y.clients|
  {
    hide Inv;
    if ServerMayMove(y) && z == ServerStep(y) {
      ServerStepKeepsInv(y);
    } else {
      var i: nat :| ClientMayMove(y, i) && z == ClientStep(y, i);
      match y.clients[i]
      case Trying => TryKeepsInv(y, i);
      case Copying(_) => CopyKeepsInv(y, i);
      case Releasing(_) => ReleaseKeepsInv(y, i);
      case _ =>
    }
  }

  lemma {:induction false} EveryRunKeepsInv(clients: nat, run: seq<System>)
    requires IsRun(clients, run)
    ensures Inv(run[|run| - 1]) && |run[|run| - 1].clients| == clients
  {
    hide Inv;
    if |run| == 1 {
      StartInv(clients);
    } else {
      EveryRunKeepsInv(clients, run[..|run| - 1]);
      NextKeepsInv(run[|run| - 2], run[|run| - 1]);
    }
  }

  /** For any number of clients and any interleaving: at most one client is between its
      `sem_trywait` and its `sem_post`, the port is not rewritten while it is being read,
      and the k-th client served holds the port of the k-th connection the server opened. */
  lemma PortsAreExclusive(clients: nat, run: seq<System>)
    requires IsRun(clients, run)
    ensures var y := run[|run| - 1];
      && (forall i, j :: 0 <= i < j < |y.clients| ==> !(Inside(y.clients[i]) && Inside(y.clients[j])))
      && (forall i :: 0 <= i < |y.clients| && Inside(y.clients[i]) ==> y.server.pc.Waiting? && y.free == 0)
      && (forall k :: 0 <= k < |y.served| ==>
            && k < |y.server.workers| && y.served[k] < |y.clients|
            && (y.clients[y.served[k]].Connected? ==> y.clients[y.served[k]].port == y.server.workers[k]))
      && (forall i, j :: 0 <= i < j < |y.clients| && y.clients[i].Connected? && y.clients[j].Connected? ==>
            y.clients[i].port != y.clients[j].port)
  {
    EveryRunKeepsInv(clients, run);
    hide IntBytes, BytesInt;
    var y := run[|run| - 1];
    forall i | 0 <= i < |y.clients| && Inside(y.clients[i])
      ensures y.served != [] && i == y.served[|y.served| - 1]
    {
      ReaderIsLast(y, i);
    }
    forall i | 0 <= i < |y.clients| && y.clients[i].Connected?
      ensures 0 <= y.clients[i].port < |y.served| && y.served[y.clients[i].port] == i
    {
      var k :| 0 <= k < |y.served| && y.served[k] == i;
    }
  }

  /** The server never waits in vain: while it waits, a client may still take the port on
      offer, or one is on its way to release it, or it has been released. */
  lemma TokenIsSomewhere(clients: nat, run: seq<System>)
    requires IsRun(clients, run) && run[|run| - 1].server.pc.Waiting?
    ensures var y := run[|run| - 1];
      || y.available == 1
      || ServerMayMove(y)
      || exists i: nat :: ClientMayMove(y, i) && Inside(y.clients[i])
  {
    EveryRunKeepsInv(clients, run);
    hide IntBytes, BytesInt;
    var y := run[|run| - 1];
    if Reading(y) == 1 {
      assert ClientMayMove(y, y.served[|y.served| - 1]);
    }
  }

  // ------------------------------------------------------------ who gets a connection

  /** Steps a client still takes before it holds its port: four bytes and the release. */
  function StepsLeft(c: Client): int
  {
    match c
    case Copying(local) => PORT_BYTES + 1 - |local|
    case Releasing(_) => 1
    case _ => 0
  }

  /** A client changes only by its own steps, and only three kinds of step change it. */
  lemma ClientChanges(clients: nat, run: seq<System>, j: nat, i: nat)
    requires IsRun(clients, run) && j + 1 < |run| && i < clients
    ensures var y, z := run[j], run[j + 1];
      && |y.clients| == |z.clients| == clients
      && (z.clients[i] == y.clients[i] || (ClientMayMove(y, i) && z == ClientStep(y, i)))
      && y.served <= z.served
  {
    hide Inv, IntBytes, BytesInt;
    assert IsRun(clients, run[..j + 1]) && IsRun(clients, run[..j + 2]);
    EveryRunKeepsInv(clients, run[..j + 1]);
    EveryRunKeepsInv(clients, run[..j + 2]);
  }

  /** A client's first step fails exactly when nothing is on offer; otherwise it takes the
      offer and is the next to be served. */
  lemma TryTakesTheOffer(clients: nat, run: seq<System>, j: nat, i: nat)
    requires IsRun(clients, run) && j + 1 < |run| && i < clients
    requires i < |run[j].clients| && i < |run[j + 1].clients|
    requires run[j].clients[i].Trying? && !run[j + 1].clients[i].Trying?
    ensures var y, z := run[j], run[j + 1];
      && (z.clients[i].Refused? <==> y.available == 0)
      && (z.clients[i].Refused? ==> z == y.(clients := y.clients[i := Refused]))
      && (!z.clients[i].Refused? ==>
            && z.clients[i] == Copying([]) && StepsLeft(z.clients[i]) == 5
            && y.available == 1 && z.available == 0 && z.served == y.served + [i])
  {
    ClientChanges(clients, run, j, i);
    assert IsRun(clients, run[..j + 1]);
    EveryRunKeepsInv(clients, run[..j + 1]);
    hide IntBytes, BytesInt, Ports, ServedInOrder;
  }

  /** Between its two semaphore calls a client is never held up, and each of its steps brings
      it nearer to its port. */
  lemma AdmittedNeverBlocks(clients: nat, run: seq<System>, i: nat)
    requires IsRun(clients, run) && i < clients
    ensures var y := run[|run| - 1];
      && |y.clients| == clients
      && (Inside(y.clients[i]) <==> StepsLeft(y.clients[i]) > 0)
      && (Inside(y.clients[i]) ==>
            && ClientMayMove(y, i)
            && StepsLeft(ClientStep(y, i).clients[i]) == StepsLeft(y.clients[i]) - 1
            && (StepsLeft(y.clients[i]) == 1 ==> ClientStep(y, i).clients[i].Connected?))
  {
    EveryRunKeepsInv(clients, run);
    var y := run[|run| - 1];
    if Inside(y.clients[i]) {
      ReaderIsLast(y, i);
    }
    hide IntBytes, BytesInt;
  }

  lemma {:induction false} ServedGrows(clients: nat, run: seq<System>, j: nat, m: nat)
    requires IsRun(clients, run) && j <= m < |run|
    ensures run[j].served <= run[m].served
  {
    if j < m {
      ServedGrows(clients, run, j, m - 1);
      ServedStep(clients, run, m - 1);
    }
  }

  lemma ServedStep(clients: nat, run: seq<System>, j: nat)
    requires IsRun(clients, run) && j + 1 < |run|
    ensures run[j].served <= run[j + 1].served
  {
    hide IntBytes, BytesInt;
  }

  /** The port of a client is the number of those served before it: the next port. */
  lemma OfferBecomesThePort(clients: nat, run: seq<System>, j: nat, m: nat, i: nat)
    requires IsRun(clients, run) && j + 1 <= m < |run| && i < clients
    requires run[j + 1].served == run[j].served + [i]
    ensures |run[m].clients| == clients
    ensures run[m].clients[i].Connected? ==> run[m].clients[i].port == |run[j].served|
  {
    ServedGrows(clients, run, j + 1, m);
    assert IsRun(clients, run[..m + 1]);
    EveryRunKeepsInv(clients, run[..m + 1]);
    assert run[m].served[|run[j].served|] == i;
    hide IntBytes, BytesInt, OneToken, Ports;
  }

  // ------------------------------------------------------------ everybody can connect

  /** `k` clients connected, the others not yet started, the server about to offer port `k`. */
  function Between(n: nat, k: nat): System
    requires k <= n
  {
    System(if k == 0 then Zeros(PORT_BYTES) else IntBytes(k - 1), 0, 0,
           Server(Writing(0), k, if k == 0 then 0 else k - 1, seq(k, j => j)),
           seq(n, i => if 0 <= i < k then Connected(i) else Trying), seq(k, j => j))
  }

  lemma TakeStep(clients: nat, run: seq<System>, z: System) returns (longer: seq<System>)
    requires IsRun(clients, run) && Next(run[|run| - 1], z)
    ensures |longer| > 0 && IsRun(clients, longer) && longer[|longer| - 1] == z
  {
    hide Next;
    longer := run + [z];
  }

  lemma ServerTakes(clients: nat, run: seq<System>) returns (longer: seq<System>)
    requires IsRun(clients, run) && ServerMayMove(run[|run| - 1])
    ensures |longer| > 0 && IsRun(clients, longer) && longer[|longer| - 1] == ServerStep(run[|run| - 1])
  {
    hide ServerStep, ClientStep;
    longer := TakeStep(clients, run, ServerStep(run[|run| - 1]));
  }

  lemma ClientTakes(clients: nat, run: seq<System>, i: nat) returns (longer: seq<System>)
    requires IsRun(clients, run) && ClientMayMove(run[|run| - 1], i)
    ensures |longer| > 0 && IsRun(clients, longer) && longer[|longer| - 1] == ClientStep(run[|run| - 1], i)
  {
    hide ServerStep, ClientStep;
    longer := TakeStep(clients, run, ClientStep(run[|run| - 1], i));
  }

  /** The server writes its port, opens the worker and posts. */
  lemma ServerOffers(n: nat, k: nat, start: seq<System>) returns (run: seq<System>)
    requires IsRun(n, start) && k < n < TWO31 - 1 && start[|start| - 1] == Between(n, k)
    ensures IsRun(n, run)
    ensures run[|run| - 1] == Between(n, k).(
      cell := IntBytes(k), available := 1, server := Server(Waiting, k + 1, k, seq(k, j => j) + [k]))
  {
    hide IntBytes, BytesInt, IsRun;
    run := ServerTakes(n, start);
    run := ServerTakes(n, run);
    run := ServerTakes(n, run);
    run := ServerTakes(n, run);
    assert run[|run| - 1].cell == IntBytes(k);
    run := ServerTakes(n, run);
    run := ServerTakes(n, run);
    run := ServerTakes(n, run);
  }

  /** The client takes the offer, copies the port and posts. */
  lemma ClientConnects(n: nat, k: nat, start: seq<System>) returns (run: seq<System>)
    requires IsRun(n, start) && k < n < TWO31 - 1
    requires start[|start| - 1] == Between(n, k).(
      cell := IntBytes(k), available := 1, server := Server(Waiting, k + 1, k, seq(k, j => j) + [k]))
    ensures IsRun(n, run)
    ensures run[|run| - 1] == Between(n, k).(
      cell := IntBytes(k), free := 1, server := Server(Waiting, k + 1, k, seq(k, j => j) + [k]),
      clients := Between(n, k).clients[k := Connected(k)], served := seq(k, j => j) + [k])
  {
    BytesIntOfIntBytes(k);
    SignedOfUnsigned(k);
    hide IntBytes, BytesInt, Signed, IsRun;
    run := ClientTakes(n, start, k);
    run := ClientTakes(n, run, k);
    run := ClientTakes(n, run, k);
    run := ClientTakes(n, run, k);
    run := ClientTakes(n, run, k);
    assert run[|run| - 1].clients[k] == Releasing(IntBytes(k));
    run := ClientTakes(n, run, k);
  }

  lemma BetweenNext(n: nat, k: nat)
    requires k < n
    ensures Between(n, k).clients[k := Connected(k)] == Between(n, k + 1).clients
    ensures seq(k, j => j) + [k] == seq(k + 1, j => j)
  {
  }

  lemma {:induction false} RunTo(n: nat, k: nat) returns (run: seq<System>)
    requires k <= n < TWO31 - 1
    ensures IsRun(n, run) && run[|run| - 1] == Between(n, k)
  {
    hide IntBytes, BytesInt;
    if k == 0 {
      run := [Start(n)];
      assert Start(n) == Between(n, 0);
    } else {
      run := RunTo(n, k - 1);
      run := ServerOffers(n, k - 1, run);
      run := ClientConnects(n, k - 1, run);
      BetweenNext(n, k - 1);
      run := ServerTakes(n, run);
    }
  }

  /** For any number of clients there is a run in which all of them connect, the i-th one to
      the i-th port. */
  lemma AllCanConnect(n: nat) returns (run: seq<System>)
    requires n < TWO31 - 1
    ensures IsRun(n, run) && |run[|run| - 1].clients| == n
    ensures forall i :: 0 <= i < n ==> run[|run| - 1].clients[i] == Connected(i)
  {
    hide IsRun;
    run := RunTo(n, n);
  }
}
