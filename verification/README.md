# Air Traffic Controller: a verified model

The program is a small air-traffic game. A game process keeps planes in a table file and
moves them by dead reckoning; clients either link that code directly or reach it through a
proxy, a request/response protocol and a byte transport. This project models the five
layers that matter for correctness and proves what they promise, each layer using the one
below it.

| layer | modules | source |
|---|---|---|
| shared-memory transport | `Shmem`, `Segment`, `Handshake` | `src/transport/shmem/shmem.c` |
| protocol and codec | `Words`, `Serialize`, `Proto`, `Exchange`, `Session` | `src/protocol/proto.c`, `src/protocol/serialize.c` |
| table file | `Seqs`, `Storage`, `StoreLock`, `PlaneLock` | `src/storage/storage.c` |
| simulation | `Aircraft`, `Flight`, `PlaneStore`, `Fleet`, `Clock`, `Simulation` | `src/atcd/atcd.c` |
| proxy and server | `Backend`, `Proxy`, `WireGame`, `ByteGame`, `Server`, `Client` | `src/cli/cli.c`, `src/srv/main.c` |

`dafny verify dfyconfig.toml` checks everything.

## How the model is built

Code that runs concurrently is a step relation with a program counter for every line between
two semaphore or file operations, so that a run is any interleaving: one ring (`Shmem`), the
port handshake with any number of clients (`Handshake`), a client and a server child over two
rings (`Exchange`), and any number of processes in `sto_set` under the file lock
(`StoreLock`). Blocking `sem_wait` and `F_SETLKW` are steps that are not enabled;
`sem_trywait` is always enabled and may fail.

Code that runs in one process is imperative and proved against specification functions: the
encoders and decoders that walk a pointer over a buffer, the framing loops over a byte pipe,
the cursor with its seeks, reads and writes, the class `Atcd` with the static counters of
`atcd.c`, the connection of a server child, the client's proxies, and the two transport
loops in place over a mapped segment with a scheduler (`Segment`).

The main results, from the top: `ByteGame.GameInBytes` and `Proxy.GameOverTheWire` (a game
over the wire is the game, in every interleaving of single steps of client and server),
`WireGame.GameByWireIsSafe` (what that game keeps, call by call), `Session.SessionIsFaithful`,
`Exchange.NoDeadlock`, `Exchange.EveryRunEnds` and `Exchange.ConversationIsFaithful`,
`Shmem.RingSafety` and the two queue refinements, `Handshake.PortsAreExclusive`,
`StoreLock.ConcurrentSetsAreSerial` (any keys, any file) with `StoreLock.ConcurrentSetsAreUpserts`
and `PlaneLock.ConcurrentSavesArePuts`, `Storage.SetIsUpsertIffNoShadow`,
`Simulation.Atcd.GetAirplanes`, `Fleet.RunIsSafe`, `Fleet.ScanConserves`,
`Fleet.PollsAreTransparent`, `Flight.SplittingAFlight` and `Fleet.StoredSteeringIsNetCommands`.

The premises of the run theorems are met: `Exchange.StartInv`, `Shmem.FreshInv`,
`Handshake.StartInv`, `StoreLock.StartInv` and `Fleet.NewGameInv` give the first state of every
run, `Session.PlanIsWellFormed`, `Session.PlanIsAnswered` and `Proxy.SessionIsAnswerable` give a
plan and a handler for every session of calls, `PlaneLock.PlaneCallsAreSensible` shows that plane
ids are keys without shadows. That every number of a game fits its C type follows from its clock
alone: `Clock.ActStaysTimely`, `WireGame.PlayingSends` and `ByteGame.PlayingIsPlayable` show it for
every run of up to 8,000,000 seconds whose clock does not run back, and `WireGame.NewGameCanBePlayed`
for a game from the empty table.

Some facts hold only under a condition, and the condition is proved exact:

- rows fit their slots if and only if the size is not 1 modulo 32 (`Storage.RoundUpIsCeiling`);
- `sto_set` is a map update if and only if no stored key shadows the given one
  (`Storage.SetIsUpsertIffNoShadow`);
- a plane's round trip is the identity if and only if its time fits 32 unsigned bits, and a frame
  is restored if and only if its tail is zero (`Serialize.PlaneRoundTrip`, `Serialize.FrameRoundTrip`);
- a plane found below ground stays there for every pair of times if and only if it does not climb;
  for times after its stamp it always does (`Flight.StaysBelowIffNotClimbing`, `Flight.StaysBelow`);
- a command puts a plane that is down back into the air if and only if the store has the plane on
  the ground and the command is not one that the guards of the switch refuse
  (`Fleet.SetRevivesIffStale`);
- a proxied call answers like the direct one if and only if the command is known or the plane is
  not under ground, and opening the table does not fail; the caller's plane is left the same if
  and only if the direct call would not have changed it, which for a plane in the air means a
  refused command, a stamp that is the current time and a place on the map
  (`Proxy.ProxyIsFaithful`).

## Where the code and its documentation disagree

The model follows the code.

- `ROUND_UP` (`src/storage/storage.c:9`) adds `mask - 2`, not `mask - 1`; the comment at line 32
  promises alignment, and the slot is one byte short when the size is 1 modulo 32
  (`Storage.RoundUpIsCeiling`, `Storage.ShortSlotOverwrites`).
- `_in_da_zone` returns 0 inside a zone and its caller negates it (`src/atcd/atcd.c:65`), against
  the comments at lines 61-62 and 74-75: a plane lands exactly when it is slow, descends at -10 and
  comes down near no airport (`Flight.LandsAwayFromAirports`, in coordinates `Flight.LandingLaw`), and a perfect approach to an airport
  is a crash for every landing instant (`Flight.PerfectLandingCrashes`).
- The comment before `set` (`src/atcd/atcd.c:189`) says it returns 0 on success; it returns the
  48 bytes written, and 0 exactly for a plane below ground (`Fleet.SetReturns`). The proxy returns
  0 for both.
- Direct `set` stamps and steers the plane it is given a pointer to; the proxy sends a copy and
  leaves the caller's plane as it was (`src/atcd/atcd.c:192-237`, `src/cli/cli.c:98`), so after a
  successful command the two differ (`Proxy.CallersPlaneDiffers`). The client of this repository
  does not look at the difference: it commands a copy of what it displays (`src/atcc/main.c:94-95`).
- A proxied `get_airplanes` reports 0 planes when the server's scan fails, where the direct call
  reports -1 (`src/srv/main.c:163-171`, `src/cli/cli.c:31-38`; `Proxy.FailedScanLooksEmpty`).
- `set` with an unknown command is refused by the proxy without a request, while the direct call
  first moves the plane and brings it down when it is below ground (`src/atcd/atcd.c:192-193`,
  `src/cli/cli.c:96`; `Proxy.UnknownCommand`).

## Model

| member | source | states |
|---|---|---|
| Shmem.TxStepKeepsInv | src/transport/shmem/shmem.c:180-186 | every line of the sender's loop keeps the ring invariant: semaphores and held slots sum to 32, cursors point where the histories say, unread cells still hold the bytes sent |
| Shmem.RxStepKeepsInv | src/transport/shmem/shmem.c:211-217 | the same for every line of the receiver's loop |
| Shmem.RingSafety | src/transport/shmem/shmem.c:160-220 | in every reachable state of every interleaving, received is a prefix of sent, what is between is the zone from `rd` on modulo 32 (from `rd` + 1 between a load and the cursor's advance), free + available + slots held mid-step is 32, and the cell about to be written holds no unread byte |
| Shmem.FreshInv | src/transport/shmem/shmem.c:114-135 | fresh semaphores (32 and 0) satisfy the invariant |
| Shmem.SenderRefinesQueue | src/transport/shmem/shmem.c:180-186 | the store step enqueues its byte in a FIFO of at most 32, every other line leaves the queue alone |
| Shmem.ReceiverRefinesQueue | src/transport/shmem/shmem.c:211-217 | the load step dequeues the oldest byte into the caller's buffer, every other line leaves the queue alone |
| Segment.Half.SendStep | src/transport/shmem/shmem.c:180-186 | the line executed in place on zone, semaphores and `wr` is the step of the model |
| Segment.Half.ReceiveStep | src/transport/shmem/shmem.c:211-217 | the line executed in place on buffer, semaphores and `rd` is the step of the model |
| Segment.Half.Transfer | src/transport/shmem/shmem.c:160-220 | one send and one receive of the same size, of any size, under any scheduler: both return, the buffer holds the data, the ring is empty and in step again |
| Segment.TransferEnds | src/transport/shmem/shmem.c:160-220 | if neither loop can move, both calls are over and every byte has arrived |
| Handshake.EveryRunKeepsInv | src/transport/shmem/shmem.c:223-246 | one token circulates writer, available, reader, free, writer in every reachable state, whatever the number of clients |
| Handshake.PortsAreExclusive | src/transport/shmem/shmem.c:223-246 | at most one client between trywait and post, the port is not rewritten while it is copied, the k-th client served has the port of the k-th worker, and no two clients share a port |
| Handshake.TokenIsSomewhere | src/transport/shmem/shmem.c:293-304 | a waiting server always has a port on offer, a client on its way to release it, or a release to take |
| Handshake.TryTakesTheOffer | src/transport/shmem/shmem.c:233-236 | at any point of any run a client's first step fails exactly when nothing is on offer; otherwise it takes the offer and is the next to be served |
| Handshake.AdmittedNeverBlocks | src/transport/shmem/shmem.c:237-239 | a client between its semaphore calls can always move, and each of its five steps brings it nearer to its port |
| Handshake.ClientChanges | src/transport/shmem/shmem.c:223-246 | nobody but a client itself changes its state, and nobody served is forgotten |
| Handshake.OfferBecomesThePort | src/transport/shmem/shmem.c:223-246 | the port a client connects to is the number of clients served before it |
| Handshake.AllCanConnect | src/transport/shmem/shmem.c:223-304 | for any number of clients there is a run in which all of them connect, the i-th to the i-th port |
| Exchange.StartInv | src/transport/shmem/shmem.c:114-135 | a fresh connection satisfies the invariant of every conversation |
| Exchange.ClientStepKeepsInv | src/protocol/proto.c:162-173 | every step of a client in `atc_request` keeps the invariant relating plan, streams and program counters |
| Exchange.ServerStepKeepsInv | src/protocol/proto.c:176-193 | every step of a server child in `atc_reply` keeps it |
| Exchange.NoDeadlock | src/protocol/proto.c:162-193 | in every reachable state in which neither side can move, all exchanges are finished, although frames are longer than the ring |
| Exchange.ClientWorkDecreases | src/protocol/proto.c:162-173 | the measure is exactly the number of steps the client still takes |
| Exchange.ServerWorkDecreases | src/protocol/proto.c:176-193 | every server step lowers its measure, with any number of frames in a reply |
| Exchange.EveryRunEnds | src/protocol/proto.c:162-193 | the measure never falls below zero and every step lowers it, so no run is longer than its value at the start |
| Exchange.StreamsStayInStep | src/protocol/proto.c:162-193 | between two exchanges both rings are empty, `rd` equals `wr`, the semaphores are 32 and 0 |
| Exchange.ConversationIsFaithful | src/protocol/proto.c:162-193 | in every interleaving the client's log is, exchange by exchange, the handler's reply to exactly the requests sent; runs that cannot go on have finished everything, with the server closed exactly when its handler hung up |
| Words.BytesIntOfIntBytes | src/protocol/serialize.c:28-58 | reading four network-order bytes back gives the integer as a C `int` |
| Words.NetworkOrder | src/protocol/serialize.c:28-35 | the first byte on the wire is the most significant one, negative numbers in two's complement |
| Words.IntBytesOfBytesInt | src/protocol/serialize.c:28-58 | writing the integer read from any four bytes gives these bytes |
| Serialize.WireFields | src/protocol/serialize.c:61-77 | which bytes of a frame hold which field of a plane |
| Serialize.PlaneRoundTrip | src/protocol/serialize.c:61-96 | decode after encode gives the plane with its time cut to 32 bits, and the plane itself exactly when 0 <= time < 2^32 |
| Serialize.FrameRoundTrip | src/protocol/serialize.c:61-96 | encode after decode gives the frame exactly when its unused tail is zero |
| Serialize.AirportLayout | src/protocol/serialize.c:110-119 | eleven bytes: x, y, id |
| Serialize.AirportRoundTrip | src/protocol/serialize.c:99-119 | decode after encode is the identity on airports, whatever follows the eleven bytes |
| Serialize.AirportFrameRoundTrip | src/protocol/serialize.c:99-119 | encode after decode restores the eleven bytes |
| Serialize.WireCodes | src/protocol/include/protocol.h:8-28 | the characters that stand for the requests and the responses, and the six that carry a plane |
| Serialize.RequestLayout | src/protocol/serialize.c:123-143 | 64 bytes: the kind, the plane of a command, and zeros |
| Serialize.RequestRoundTrip | src/protocol/serialize.c:123-166 | the kind always survives; the plane survives for exactly the six commands and is all zeros otherwise |
| Serialize.HeaderLayout | src/protocol/serialize.c:200-224 | eight bytes: kind, then payload |
| Serialize.HeaderRoundTrip | src/protocol/serialize.c:169-224 | kind and payload of a response header survive |
| Serialize.SndStrn | src/protocol/serialize.c:15-21 | overwrites exactly the bytes at the pointer |
| Serialize.IntReadBack | src/protocol/serialize.c:28-58 | reading an int at the position where one was written gives it back, wherever in a buffer and whatever it held |
| Serialize.AtcPlaneToWire | src/protocol/serialize.c:61-77 | leaves the encoded plane and zeros behind the pointer, nothing before it changes |
| Serialize.AtcWireToPlane | src/protocol/serialize.c:80-96 | decodes the plane at the pointer |
| Serialize.AtcAirportToWire | src/protocol/serialize.c:110-119 | overwrites eleven bytes and leaves the rest of the buffer as it was |
| Serialize.AtcWireToAirport | src/protocol/serialize.c:99-108 | decodes the airport |
| Serialize.AtcReqToWire | src/protocol/serialize.c:123-143 | the whole buffer is the request's frame, and the pointer ends behind the plane or behind the kind |
| Serialize.AtcWireToReq | src/protocol/serialize.c:145-166 | decodes a frame to the request of its bytes, with the pointer ending in the same place |
| Serialize.AtcResToHeader | src/protocol/serialize.c:200-224 | header bytes for the three kinds; -1 with only the kind written otherwise |
| Serialize.AtcHeaderToRes | src/protocol/serialize.c:169-198 | kind and payload as sent; -1 for exactly the unknown kinds |
| Proto.ChunksAreShaped | src/protocol/proto.c:67-159 | a response is an 8-byte header announcing exactly the frames that follow it |
| Proto.ResponseRoundTrip | src/protocol/proto.c:39-159 | a response decoded from its chunks is the response sent, with times cut to 32 bits |
| Proto.ReadOne | src/protocol/proto.c:95-126 | reading from a stream that starts with a response takes that response and exactly its bytes |
| Proto.StreamRoundTrip | src/protocol/proto.c:39-159 | any sequence of responses, each with its own buffer remains, is parsed back to the same sequence with nothing left over |
| Proto.AtcWritePlanes | src/protocol/proto.c:67-79 | appends the encoded planes, one frame each, in order |
| Proto.AtcWriteAirports | src/protocol/proto.c:81-93 | appends one frame per airport, the rest of each frame being what the buffer held |
| Proto.AtcWriteResponse | src/protocol/proto.c:129-159 | appends exactly the response's chunks and returns how many frames |
| Proto.AtcReadPlanes | src/protocol/proto.c:39-51 | takes as many frames as announced and decodes each; none when the announced number is negative |
| Proto.AtcReadAirports | src/protocol/proto.c:53-65 | the same for airports |
| Proto.AtcReadResponse | src/protocol/proto.c:95-126 | returns the response at the head of the stream and leaves what follows; -1 for an unknown header, with only the kind changed |
| Session.PlanIsWellFormed | src/protocol/proto.c:162-193 | typed questions and answers make a plan that the byte-level results apply to |
| Session.PlanIsAnswered | src/protocol/proto.c:176-193 | decoding, answering and encoding is the byte handler that plan needs |
| Session.HangUpIsRefusal | src/protocol/proto.c:185-190 | a handler that fails is reported as a single header, an acknowledgement of -1, and the connection ends |
| Session.SessionIsFaithful | src/protocol/proto.c:162-193 | in every byte-level interleaving, every answer the client decodes is the service's answer to exactly the requests made so far, and both sides stop only when all are answered and the rings are empty, the server closed exactly after a hang-up |
| Storage.RoundUpIsCeiling | src/storage/storage.c:9 | the macro rounds up to a multiple of 32 exactly when n % 32 != 1 |
| Storage.StoInit | src/storage/storage.c:24-35 | -1 for an empty type; the slot is 16 bytes and the data, rounded by the macro, and holds whole rows exactly when the size is not 17 modulo 32 |
| Storage.ShortSlotOverwrites | src/storage/storage.c:33 | with a short slot the next row's key destroys the last data byte |
| Storage.FileLength | src/storage/storage.c:208-238 | a table file of n rows has (n - 1) * row size + 16 + data size bytes |
| Storage.CanonIsTheString | src/storage/storage.c:135-138 | the stored key is the string of the given one, filled up with zeros to 16 bytes |
| Storage.ReadByte | src/storage/storage.c:224-233 | a read gives what is there, up to the end of the file |
| Storage.WrittenByte | src/storage/storage.c:138-146 | a write replaces exactly its bytes; a hole it leaves reads as zero |
| Storage.RowInFile | src/storage/storage.c:208-238 | key and data of row i are the bytes at i times the row size |
| Storage.WriteAppends | src/storage/storage.c:135-146 | key and data written at the first free slot add the last row; the previous slot's padding reads as zero |
| Storage.WriteReplaces | src/storage/storage.c:146 | data written behind a stored key replaces that row's data and no other byte |
| Storage.SetRefinesUpsert | src/storage/storage.c:109-156 | without a shadowing key the new file is the layout of the updated rows, of length (n-1) * row size + 16 + data size |
| Storage.ShadowBreaks | src/storage/storage.c:121-132 | with a shadowing key there are data for which it is not |
| Storage.SetIsUpsertIffNoShadow | src/storage/storage.c:109-156 | `sto_set` is insertion-ordered map update for all data if and only if no earlier key merely starts with the given one and the empty key only starts a table |
| Storage.UpsertIsMapUpdate | src/storage/storage.c:109-156 | the updated rows have one row for the key with the new data, all other rows unchanged and in order, and one more row exactly when the key was new |
| Storage.Cursor.FetchNextRecord | src/storage/storage.c:208-238 | the row at the cursor, or 0 with cleared buffers at the end; where the file offset is left |
| Storage.Cursor.Get | src/storage/storage.c:68-83 | the next row the filter accepts, or 0 when no later row is accepted |
| Storage.StoSet | src/storage/storage.c:109-156 | the scan and its writes leave exactly the bytes that the lemmas speak about |
| StoreLock.StepKeepsInv | src/storage/storage.c:109-156 | every step of every process, whatever the keys, keeps the invariant: the holder of the lock is inside one undisturbed call on the file that the finished calls left |
| StoreLock.ConcurrentSetsAreSerial | src/storage/storage.c:109-156 | in every interleaving of any calls on any file, shadowing and empty keys included, whenever nobody holds the lock the file is what the finished calls leave one after the other, once each, in the order the lock was released; and nobody holds it once all calls have returned |
| StoreLock.AloneIsSetFile | src/storage/storage.c:109-156 | on the file of a table the steps of an undisturbed call leave exactly what the one-process program leaves, whatever the key |
| StoreLock.ConcurrentSetsAreUpserts | src/storage/storage.c:109-156 | with keys that do not shadow each other, the file, whenever nobody holds the lock and when all calls have returned, is the table of the map updates in that order, and no key has two rows |
| StoreLock.NobodyIsStuck | src/storage/storage.c:250-269 | somebody can move until all calls have returned |
| StoreLock.EveryRunEnds | src/storage/storage.c:109-156 | the measure stays at least zero and every step lowers it, so no interleaving is longer than an explicit bound |
| PlaneLock.PlaneCallsAreSensible | src/atcd/atcd.c:71 | the keys of planes with six-character ids never shadow each other |
| PlaneLock.ConcurrentSavesArePuts | src/atcd/atcd.c:71 | any number of processes save planes at once: whenever nobody holds the lock, and when all have returned, the file is that of the table into which the planes were put in the order the lock was released |
| Flight.WrapIsModulo | src/atcd/atcd.c:48-57 | C's remainder with the fix-up is the mathematical modulus |
| Flight.TruncTowardZero | src/atcd/atcd.c:31 | a conversion to `int` keeps the sign and the whole part of the size |
| Flight.WhereAPlaneGetsTo | src/atcd/atcd.c:28-59 | in numbers, for each of the eight headings and seven elevations: where a plane in the air is after so many seconds, and when it is below ground |
| Flight.WhereAPlaneComesDown | src/atcd/atcd.c:32-59 | in numbers: the place of a plane brought down, for every landing instant |
| Flight.BelowExactly | src/atcd/atcd.c:30-32 | the truncated altitude is negative exactly when the exact one is at most -1 |
| Flight.StaysBelow | src/atcd/atcd.c:28-38 | a plane once found below ground after its stamp is below ground at every later time |
| Flight.StaysBelowIffNotClimbing | src/atcd/atcd.c:28-38 | for times in any order that holds of exactly the planes that do not climb |
| Flight.LegNearExact | src/atcd/atcd.c:46-59 | one leg is off exact travel by less than a metre, up to whole turns around the map |
| Flight.LegsNearExact | src/atcd/atcd.c:46-59 | n legs are off exact travel by less than n metres, up to whole turns |
| Flight.LegsNearOneLeg | src/atcd/atcd.c:46-59 | a coordinate after n truncated legs is within n metres of one leg, on the torus |
| Flight.LegsExact | src/atcd/atcd.c:46-59 | without fractions the legs add up exactly |
| Flight.ItineraryIsLegs | src/atcd/atcd.c:28-59 | observing and re-stamping a plane is flying legs on each axis, nothing else changes |
| Flight.SplittingAFlight | src/atcd/atcd.c:28-59 | splitting a flight into n legs moves its end by at most n metres per axis and not at all along the ground for headings 0, 90, 180, 270 |
| Flight.LandingLaw | src/atcd/atcd.c:61-88 | in coordinates: a plane brought down lands if and only if its elevation is -10, its speed at most 56, and the place lies in neither square of 1000 metres around (1000, 1000) and (2000, 2000) |
| Flight.LandsAwayFromAirports | src/atcd/atcd.c:63-88 | a plane brought down lands if and only if it is slow, descends at -10 and the place where it comes down is near no airport; otherwise it crashes |
| Flight.PerfectLandingCrashes | src/atcd/atcd.c:61-88 | for every landing instant there is an approach at -10 and lowest speed, under ground a second later, that comes down in the middle of the first airport and is a crash; the same in the open is a landing |
| Flight.AdvanceKeepsValid | src/atcd/atcd.c:39-59 | a plane moved in the air stays on the map, above ground and within its limits |
| Flight.BringDownKeepsValid | src/atcd/atcd.c:32-72 | a plane brought down stays on the map and within its limits, whatever the landing instant |
| Flight.AdvanceNow | src/atcd/atcd.c:192-193 | a plane stamped with the current time does not move, and is below ground exactly when its altitude is negative |
| Flight.SteerEffect | src/atcd/atcd.c:194-237 | a command changes one of speed, elevation and heading by 14, 10 or 45 modulo 360, keeps all limits, and when refused changes nothing |
| Flight.SteerRefuses | src/atcd/atcd.c:194-237 | the switch refuses exactly by its guards, and a command changes the plane exactly when it is not refused |
| Flight.SteeringIsNetCommands | src/atcd/atcd.c:190-240 | after any sequence of commands speed, elevation and heading are the start plus 14, 10 and 45 (mod 360) times the net accepted commands |
| PlaneStore.ImageRoundTrip | src/atcd/include/atcd.h:21-32 | the 48-byte memory image of a plane determines the plane |
| PlaneStore.KeyOfGoodId | src/storage/storage.c:121-132 | a six-character key matches a stored plane key exactly when they are equal |
| PlaneStore.PutEffect | src/atcd/atcd.c:71 | storing a plane replaces the row of its id or adds one, and touches no other row |
| PlaneStore.SetIsPut | src/atcd/atcd.c:71 | on a table of planes `sto_set` writes exactly the file of the updated table |
| Fleet.ScanConserves | src/atcd/atcd.c:245-287 | rows = planes in the air (returned or beyond the 50 of the buffer) + crashed + landed + brought down in this scan; the next scan counts the last group as down |
| Fleet.PollsAreTransparent | src/atcd/atcd.c:28-44 | any earlier polls change neither what a later poll returns nor which planes are down after it, and no row still flying |
| Fleet.SetOnlySteers | src/atcd/atcd.c:190-240 | for a plane in the air and on the map `set` stores exactly the steered plane, or nothing when refused |
| Fleet.SetReturns | src/atcd/atcd.c:189-240 | `set` gives 0 exactly below ground, -1 exactly for a refused command in the air, 48 otherwise, and but for -1 it stores the struct it leaves |
| Fleet.SetChangesItsArgument | src/atcd/atcd.c:190-240 | the caller's struct is left as it was exactly when the command is refused, the stamp is already now and the plane is on the map, or when it is already down as computed |
| Fleet.SetRevivesIffStale | src/atcd/atcd.c:190-240 | a command puts a brought-down plane back into the air exactly when the store has it on the ground and the guards do not refuse the command |
| Fleet.StoredSteeringIsNetCommands | src/atcd/atcd.c:190-240 | after any commands given between polls, the plane moving on from poll to poll, its row has speed, elevation and heading of the start plus 14, 10 and 45 (mod 360) times the net accepted commands |
| Fleet.TwoClientsRevive | src/atcd/atcd.c:190-240 | a run with two clients of one store: a plane displayed to one, brought down by the poll of the other, flies again after a command from the old copy |
| Fleet.NewPlaneIsValid | src/atcd/atcd.c:142-168 | any random numbers make a valid flying plane with a proper id |
| Fleet.NewPlanes | src/atcd/atcd.c:142-181 | new planes are exactly the level flying ones at 1000 to 9999 metres, on the map, heading 0 to 270 by 45, speed 42 to 238 by 14, stamped now, with two capitals, three digits and a capital for an id: each draw makes one, and each of them can be drawn |
| Fleet.NewGameInv | src/atcd/atcd.c:20-23 | an empty table with zero counters satisfies the invariant |
| Fleet.PollKeepsInv | src/atcd/atcd.c:245-287 | a poll keeps all planes valid, displays only planes that fly in the store, and its scores are the numbers of planes crashed and landed before it |
| Fleet.ActKeepsInv | src/atcc/main.c:57-66 | every step of one client (poll, asking for either score, command, new plane) keeps the invariant, lowers neither score and never changes a plane that is down |
| Fleet.RunIsSafe | src/atcc/main.c:57-96 | over every run of one client: planes valid, planes once down stay down unchanged, no row lost or moved, neither score told to the client ever back |
| Clock.AdvanceClimbs | src/atcd/atcd.c:28-40 | no plane climbs more than 140 metres a second |
| Clock.ActStaysTimely | src/atcd/atcd.c:142-240 | every step of a game keeps all altitudes below 10000 metres plus 140 for each second since its start, and all stamps within the game |
| Simulation.Atcd.Save | src/atcd/atcd.c:71 | the table file holds the table with the plane put in |
| Simulation.Atcd.CalculatePosition | src/atcd/atcd.c:28-44 | 1 and the plane moved by its heading and elevation, in numbers, when it is in the air; 0 and the plane brought down, and stored, when it is not |
| Simulation.Atcd.Command | src/atcd/atcd.c:194-237 | the switch on the plane's fields is the steering function |
| Simulation.Atcd.Set | src/atcd/atcd.c:190-240 | result, new table and the struct left with the caller are those of the command on the old table |
| Simulation.Atcd.CreatePlane | src/atcd/atcd.c:142-168 | the new plane is stored unless the last scan filled the buffer |
| Simulation.Atcd.Visit | src/atcd/atcd.c:265-276 | one row more dealt with: table, buffer and both counters are those of one more row |
| Simulation.Atcd.GetAirplanes | src/atcd/atcd.c:245-287 | the scan ends though it writes through a second cursor, visits each row once, returns the planes in the air up to the buffer, counts the others and brings down the rest in place; -1 with both counters -1 and nothing else changed when the file cannot be opened |
| Backend.SoonInRange | src/atcd/atcd.c:30-40 | altitudes of valid planes fit an `int` for half a year around their stamp |
| Backend.AnswerFits | src/srv/main.c:121-211 | whatever is asked, the handler's answer fits the protocol |
| Backend.AirportsOfTheGame | src/atcd/atcd.c:129-136 | `get_airports` gives 2 with (1000, 1000) and (2000, 2000) in the buffer |
| Backend.HandlerObeys | src/srv/main.c:126-161 | each command character changes speed, heading or elevation as ordered, in numbers, with 0; at a limit nothing changes, with -1 |
| Backend.HandlerAnswers | src/srv/main.c:163-210 | what every other request is answered and does: planes, airports, both scores, a new plane unless 50 are flying, hanging up for leaving, and 0 for anything else |
| Proxy.HandlerSuits | src/srv/main.c:121-211 | the handler answers each call with a response of the kind its proxy reads |
| Proxy.HandlerActs | src/srv/main.c:121-211 | a forwarded call changes the game as the direct call does |
| Proxy.AirportsOverTheWire | src/cli/cli.c:58-72 | a client gets 2 airports, (1000, 1000) and (2000, 2000) |
| Proxy.CopiesAgree | src/cli/cli.c:81-101 | the caller's plane after a proxied and after a direct `set` is the same exactly when the direct one has nothing to write |
| Proxy.CallersPlaneDiffers | src/cli/cli.c:98 | speeding up any valid flying plane below top speed succeeds both ways and leaves the caller with two different planes |
| Proxy.ProxyIsFaithful | src/cli/cli.c:24-101 | through encoder, decoder and handler a call answers like the direct call exactly when it is transparent: `set` fails in the same cases, counts and airports are equal, planes equal up to 32-bit times; the game ends in the same state; the plane left with the caller is the same exactly when the direct call would not change it |
| Proxy.UnknownCommand | src/cli/cli.c:83-97 | a direct call with an unknown command is refused with nothing stored for a plane not below ground, and gives 0 for one that is |
| Proxy.FailedScanLooksEmpty | src/srv/main.c:163-171 | when the file cannot be opened the direct scan gives -1 and the proxied one 0 planes, and both scores become -1 |
| Proxy.TimesSurvive | src/protocol/serialize.c:71-90 | plane lists are equal field by field exactly when all times fit 32 bits |
| Proxy.SessionIsAnswerable | src/cli/cli.c:10-101 | every session of calls that ends with leaving can be asked, answered and encoded, and only leaving hangs up |
| Proxy.SameGame | src/srv/main.c:114-119 | after any calls the game behind the server is the game called directly |
| Proxy.GameOverTheWire | src/cli/cli.c:10-101 | a whole session of calls over the two rings, in any interleaving: every finished call answers like the direct one exactly when it is transparent and leaves the same plane exactly when the direct one changes nothing, leaving is answered by -1, the game behind the server is the direct one after the calls received so far, and both sides stop only at the end of the session, with the server hung up and the rings empty |
| WireGame.ActIsTheSame | src/cli/cli.c:24-101 | one step of the client through the proxy is the step of the game |
| WireGame.RunIsTheSame | src/cli/cli.c:24-101 | so is a whole game, the unknown command 6 included |
| WireGame.PlayingSends | src/atcc/main.c:57-96 | while the clock does not run back and stays within 8,000,000 seconds, every call of the game fits the protocol |
| WireGame.GameByWireIsSafe | src/atcc/main.c:57-96 | over every such game, call by call through proxy, codec, framing and handler: all planes stored and all planes decoded by the client are valid, displayed planes fly in the store, planes down stay down, and the scores the client has decoded never go back |
| WireGame.SentIsTheGame | src/atcc/main.c:68-95 | the operations that make no request change nothing, so a game is the game of those that are sent |
| ByteGame.GameAfter | src/cli/cli.c:24-101 | the calls of a game, made directly, leave the game |
| ByteGame.PlayingIsPlayable | src/atcc/main.c:57-96 | the session of such a game meets every premise of the results about sessions |
| ByteGame.GameInBytes | src/atcc/main.c:57-96 | in every interleaving of single steps of the two processes over the rings: the game behind the server is the game after the operations received; every finished poll has given the client exactly the planes of the game then, all valid and flying in the store; the scores it has heard never go back; its commands carry planes of the last list it has heard; leaving is answered by -1; both stop only when all is done and the server has hung up |
| Server.Connection.ReplyHandler | src/srv/main.c:121-211 | the switch over the simulation gives the answer and the game of the handler function |
| Server.Connection.AtcReply | src/protocol/proto.c:176-193 | takes one frame, answers it on the game, appends exactly the encoded answer and returns 64; exactly for a hang-up it appends the header of an acknowledgement of -1 and returns -1 |
| Server.Connection.ListenChildChannels | src/srv/main.c:114-119 | all requests of a client that leaves are answered in order, each by the handler on the game as the earlier ones left it, and the loop ends |
| Client.Cli.AtcRequest | src/protocol/proto.c:162-173 | sends the request's frame and takes exactly one response, returning its number of entries; -1 for an unknown header, with only the kind of the response changed |
| Client.Cli.OnlyKindIsSent | src/protocol/serialize.c:123-143 | a plane left over in the request does not change a frame that carries none |
| Client.Cli.Set | src/cli/cli.c:81-101 | sends the command's request and returns the code of the answer, leaving the caller's plane as it is; -1 and no byte sent for an unknown command |
| Client.Cli.GetAirplanes | src/cli/cli.c:24-39 | returns the announced number with the planes in the caller's buffer |
| Client.Cli.GetAirports | src/cli/cli.c:58-72 | returns the announced number with the airports in the caller's buffer |
| Client.Cli.GetCrashed | src/cli/cli.c:41-46 | asks once and returns the code of the answer |
| Client.Cli.GetLanded | src/cli/cli.c:49-55 | asks once and returns the code of the answer |
| Client.Cli.CreatePlane | src/cli/cli.c:74-79 | asks once and takes the answer |

## Left out

- The ncurses front end and its key handling; only the order of its calls is used. That a page shown may be older than the last poll is not modelled.
- The socket, FIFO and message-queue transports: wrappers over kernel calls.
- Forking, signal handlers, the table of client processes and `kill_client` in `src/srv/main.c`.
- `sto_get_by_id` (its filter accepts every row but the wanted one), `sto_del`, `sto_when`, `sto_dispose`.
- Upgrading a read lock to a write lock while other processes hold read locks in `get_airplanes`: lock results are ignored there and no exclusion holds.
- Shared-memory and semaphore names, unlinking, and semaphores left over from an earlier run.
- Failures of system calls, but for the one that opens the table for a scan.
- IEEE rounding: the sine and cosine tables are exact decimals. Overflow of a float converted to `int` is excluded by `InRange`, which holds in every game within the horizon of `Clock`, and signed overflow of the port counter by the guard of its step.
- The clock and random numbers are parameters of every call.
- Structure padding is zero, plane ids are six non-NUL bytes, and a row is 48 bytes of data as on the usual 64-bit layout.
- Flight.BringDown: the landing instant is an arbitrary `int`, because the code divides by a sine that is 0 for every negative elevation; what lands is proved for every instant, as coded.
- Serialize.AtcPlaneToWire: clears the room left in the buffer; inside a request the source clears 64 bytes from the fifth byte on, four bytes past the buffer.
- Simulation.Atcd.Set: a plane struct changed through its pointer is an out-parameter, not updated in place; elevations whose change by 10 overflows an `int` are excluded.
- ByteGame.GameInBytes: operations that make no request are left out of the run; `WireGame.SentIsTheGame` shows that they change nothing. Games longer than 8,000,000 seconds, where an altitude may overflow, are excluded.
- Simulation.Atcd.GetAirplanes: a read that fails in the middle of a scan is a failing system call and left out.
- Proto.Pipe: a reader whose blocking call would wait returns once the bytes are there; the waiting itself is the subject of `Exchange`.
- Proto.AtcReadResponse: asks that the whole response, or an unknown header, is in the stream; a response that never comes blocks the source for ever.
- Exchange.ConversationIsFaithful: nothing is asked after the handler has hung up; the source would wait for ever.
- Handshake.PortsAreExclusive: the handshake is a step relation on values; the mapping of each connection's own segment is a single step.
- Server.Connection.ReplyHandler: planes in requests have ids of six non-NUL characters, which every id made by this program has; a shorter id is a key that shadows others, which `Storage` and `StoreLock` cover at the level of the file.
- Server.Connection.AtcReply: the same ids, and answers whose numbers fit an `int`.
- Server.Connection.ListenChildChannels: the same ids, and a client that leaves in the end.
