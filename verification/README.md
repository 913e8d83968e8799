# Verified model of the WARP MASQUE client

This project models the four cores of the `warp-masque` crate that hold state or do arithmetic, and
proves what they promise for every input, every run and every interleaving.

- **Account pool** (`pool.rs`). `Supervision` is the concurrent protocol as a state machine with one event
  per lock section, atomic access or poll of a future: `add_account`, `rotate`, `set_http2`, `reconnect`,
  `remove_account`, `build_tunnel` and the supervisor loop with its `Notify` permit and `watch` channel.
  `SupervisionProofs` holds the inductive invariant, `SupervisionTheorems` the safety theorems,
  `SupervisionProgress` convergence. `LoadBalancer` is the search of `pick` on 64-bit words with its counting
  theorem; `Pool` holds the classes whose methods are the lock sections and calls. Those that the state
  machine interleaves are proved to take its step from every state that describes the object.
- **Datagram and capsule codec** (`tunnel.rs`, `h2tunnel.rs`). `Varint` (section 16 of RFC 9000), `Framing`
  (greedy parsing of any self-delimiting format, cut anywhere), `Capsules` (sections 3.2 and 3.5 of RFC 9297:
  reader, writer, end to end), `Datagrams` (section 2.1 of RFC 9297: demultiplexer and packet size).
- **Netstack actor** (`netstack.rs`). `Netstack` is the actor as a state machine over smoltcp's contracts,
  `NetstackProofs` its invariant, `NetstackTheorems` the guarantees, `NetstackClients` what the single client
  gets when handles are reused, `NetstackReplies` which answer a connect gets, `NetstackInbound` when an end
  of stream hides bytes, `NetstackPorts` the port allocator, `NetstackHistory` what a run did at some or at
  every event, `Resolver` the DNS half, `NetstackActor`
  the class whose methods are proved to take exactly the machine's steps, `TcpConn` the stream object.
- **Packet arithmetic** (`egress_probe.rs`). `Checksum` (RFC 1071), `Packets` (IPv4/UDP, RFC 768 and RFC 791),
  `DnsText` (section 4.1 of RFC 1035).

`dafny verify dfyconfig.toml` checks the whole project.

## How to read the state machines

`Apply(state, event)` is `None` where the event cannot happen; `Run` folds it over a sequence. All
nondeterminism (which task moves, whether a connect succeeds, when a transport dies, how much a socket
takes, when a timer fires) is in the events, so a statement about every reachable state is a statement
about every interleaving. Sleeps and time-outs are events that may happen at any time.

What is not visible in the source enters as a contract:

- tokio's `Notify` stores one permit, wakes a queued waiter first, and takes back the notification of a
  dropped future; `watch` is a value, a version and a sender that may go; `mpsc` is a bounded queue;
- registration and `connect_with` yield something or fail, and `netstack::spawn` gets its thread (it panics
  otherwise, which would end the task that runs `build_tunnel`);
- the datagram limit of a QUIC connection may change at any time, up or down;
- a smoltcp socket takes a prefix, yields a prefix, may take or yield nothing at any call, changes state
  freely between two steps of the actor, and is added under a handle that is not live, possibly one freed
  before; `close()` changes the state as in smoltcp's own table; a DNS query slot is freed when its result
  is read.

## Where the code does not do what one might expect

Each of these is proved, with the exact condition where there is one.

- `pick` on wrapping words (a release build; a debug build panics when `start + off` overflows): around the
  wrap of `rr` the search can overlook a ready worker, and the counts are uneven, exactly when the worker
  count does not divide 2^64 (`SearchReachesAll`, `FairAcrossWrap`).
- A worker loses its builder or supervisor exactly when the first connect of its own `add_account` call fails
  (`DriverLostIff`, `DrivenIff`); from then on it stays down, though listed until it is removed
  (`OrphanIsReachable`, `OrphanStaysDown`).
- A `select` that lands between the two pin accesses of `remove_account` is lost iff the removed account was
  pinned (`Pool.Pool.RemoveAccount`).
- Commands name a socket handle only, and smoltcp hands out a freed handle again. A client whose connection
  was reset still holds its stream object; if its handle now belongs to another connect, its bytes go into
  that connection and its `Close` (sent when the object is dropped) closes it (`HandleReused`). Every
  connection carries exactly its own client's bytes throughout a run iff no command queues bytes in, or is
  the first to close, a connection of another connect (`IsolationIff`).
- A connect reply is dropped unanswered exactly when the end of a service closes a connection that was asked
  to close while still in SynSent (`DroppedIff`). Such a `Close` can only come from a stale stream object:
  `StaleCloseDropsReply` is a run, and without a foreign `Close` every connect is still held or answered
  exactly once (`AnsweredExactlyOnce`).
- A connect is answered with success iff some service of its connection found the socket established
  (`ConnectedIff`), and with a refusal iff smoltcp refused it at once, or some service found the socket dead
  and none found it established (`RefusedIff`). A socket that goes from SynSent past Established between two
  polls, to CloseWait say, is passed over (`PassedOver`) and its connect is answered only once it is dead.
- When a connection is removed, bytes readable in its socket but not yet taken vanish, and the reader sees a
  clean end of stream. At end of stream a reader has everything that arrived iff the removal found nothing
  readable (`EndOfStream`, `CompleteIff`); a full channel and a closing peer are enough to lose a byte
  (`LastByteLost`).
- Two live connections share a local port iff a multiple of 16384 connects lies between theirs
  (`PortsClashIff`, `SharedPort`).
- The netstack's MTU is fixed from the datagram limit found at spawn and never below 576, while every packet
  is checked against the limit of the moment. Every packet fits at a send iff the path then carries a whole
  MTU (`FitsIff`); on a path that never changes that is so iff it carries 576 bytes (`SteadyPathFitsIff`); a
  path that shrinks breaks it far above 576 (`ShrunkenPath`).
- `encode_varint` is invertible exactly below 2^62 (`RoundTrip`), hence so are capsules (`OversizedCapsule`).
- The 32-bit sum of `checksum` cannot overflow on n bytes iff n is at most 131074 (`SumFitsIff`).

The module comment of `crates/warp-masque/src/tunnel.rs:34-35` and `DESIGN.md:75` say that the HTTP/2 capsule
value starts with a context id. The code sends and expects the bare IP packet
(`crates/warp-masque/src/h2tunnel.rs:145-154`); the model follows the code.

## Model

| member | source | states |
|---|---|---|
| SupervisionTheorems.NoLostReconfiguration | crates/warp-masque/src/pool.rs:135-192 | In every reachable state a worker that is up runs a tunnel built from its current configuration and (while listed) the current transport, unless a notification is stored, a running call still owes it, or the supervisor has woken to rebuild |
| SupervisionTheorems.BlockedIsLiveAndCurrent | crates/warp-masque/src/pool.rs:156-165 | No missed death: a supervisor asleep in `select!` watches its worker's own tunnel, whose transport is alive, with no permit stored, and is stale only where a running call still owes the notification |
| SupervisionTheorems.SlotCoherence | crates/warp-masque/src/pool.rs:71-76 | `net` is present iff `dead` is, and then net, dead, tunnel and address come from one tunnel generation |
| SupervisionTheorems.SingleBuilder | crates/warp-masque/src/pool.rs:115-117 | At most one task builds or supervises a worker, and whoever builds finds it down |
| SupervisionTheorems.BackoffSchedule | crates/warp-masque/src/pool.rs:167-188 | Over every run: the sleep after the k-th failing connect of an episode, counted from the run's events since the worker was found down or cleared, lasts min(2^(k-1), 30) seconds |
| SupervisionTheorems.PokeWakes | crates/warp-masque/src/pool.rs:160-184 | A stored permit or a notification wakes the supervisor from its wait and cuts a sleep between connects short: the next try comes at once, with the next delay, the permit or notification used up |
| SupervisionTheorems.SupervisorEndsWithPool | crates/warp-masque/src/pool.rs:169 | Once the pool is gone a supervisor about to reconnect ends |
| SupervisionTheorems.ControlCanMove | crates/warp-masque/src/pool.rs:269-308 | A control call under way can always take its next step, so what it owes it can deliver |
| SupervisionTheorems.Membership | crates/warp-masque/src/pool.rs:321-328 | Listed ids are distinct and in [1, next_id), so 0 is free as a sentinel; a pool that ever had an account is never empty |
| SupervisionTheorems.RemovalIsExact | crates/warp-masque/src/pool.rs:337-349 | Removal succeeds iff the id is listed and is not the last account, and then cuts exactly that one out, the order of the others kept |
| SupervisionTheorems.DriverLostIff | crates/warp-masque/src/pool.rs:329-331 | In a live pool whoever builds or supervises a worker goes on doing so after every event, except exactly when that event is a failing connect of the worker's own `add_account` call |
| SupervisionTheorems.DrivenIff | crates/warp-masque/src/pool.rs:321-334 | Over every run of a live pool: a worker has a builder or supervisor iff no event was a failing connect of its own `add_account` call |
| SupervisionTheorems.OrphanIsReachable | crates/warp-masque/src/pool.rs:329-331 | A run exists that lists a worker nobody supervises |
| SupervisionTheorems.OrphanStaysDown | crates/warp-masque/src/pool.rs:269-302 | Over every continuation such a worker stays unsupervised and down, whatever is rotated or reconnected |
| SupervisionProofs.StepKeeps | crates/warp-masque/src/pool.rs:135-192 | Every event keeps the inductive invariant (slots, program counters, permits, debts, listing, exclusiveness) |
| SupervisionProofs.RunKeeps | crates/warp-masque/src/pool.rs:98-120 | The invariant holds along every run |
| SupervisionProofs.NotifyKeeps | crates/warp-masque/src/pool.rs:272 | `notify_one` leaves a permit or a notified future for that worker, whichever state its supervisor is in, and keeps the invariant |
| SupervisionProofs.PollDeadKeeps | crates/warp-masque/src/pool.rs:396-405 | Any interleaving of `borrow_and_update`/`changed` with sends leaves no unseen `true`; when the wait completes, a notification the other branch had been handed is stored again as the permit |
| SupervisionProofs.PollNotifiedKeeps | crates/warp-masque/src/pool.rs:162 | Taking the permit or the notification keeps the invariant: the debt it stood for is paid by the rebuild that follows |
| SupervisionProofs.AddressedIn | crates/warp-masque/src/pool.rs:269-275 | `reconnect(id)` addresses exactly the listed worker with that id, all of them for 0 |
| SupervisionProofs.RetainIn | crates/warp-masque/src/pool.rs:345 | `retain` keeps exactly the other ids, distinct, and drops at most one |
| SupervisionProgress.OwnStepCosts | crates/warp-masque/src/pool.rs:152-192 | Each own step of a builder or supervisor (other than a failing connect) lowers a bounded effort |
| SupervisionProgress.OwnRunIsShort | crates/warp-masque/src/pool.rs:152-192 | Any run of own steps, in any schedule, is shorter than 80 |
| SupervisionProgress.StuckIsSettled | crates/warp-masque/src/pool.rs:156-165 | Where no own step is enabled, the supervisor sleeps on a live, up-to-date tunnel (up to notifications still owed) |
| SupervisionProgress.Converges | crates/warp-masque/src/pool.rs:135-192 | From every reachable state of a live pool, left alone with succeeding connects, a worker settles up and current in fewer than 80 steps |
| LoadBalancer.FairShare | crates/warp-masque/src/pool.rs:259-264 | n consecutive picks over n workers, in any lap of `rr` but not across its wrap, choose each ready worker exactly 1 + (length of the run of down workers just before it) times |
| LoadBalancer.FairTimes | crates/warp-masque/src/pool.rs:259-264 | The netstacks that successive calls return are those counted: n calls over n workers return each ready one's netstack exactly 1 + (run of down workers before it) times |
| LoadBalancer.ChosenIff | crates/warp-masque/src/pool.rs:259-264 | A search starting d places before a ready worker ends there iff those d places are all down |
| LoadBalancer.DownRunSpec | crates/warp-masque/src/pool.rs:259-264 | The run of down workers before a worker is maximal: those places are down and the one before them is not, unless it spans all others |
| LoadBalancer.FairAcrossWrap | crates/warp-masque/src/pool.rs:259-261 | The counts stay exact across the wrap of `rr` iff the number of workers divides 2^64 |
| LoadBalancer.UnfairAcrossWrap | crates/warp-masque/src/pool.rs:259-261 | Otherwise some window with every worker up chooses one of them twice |
| LoadBalancer.SearchReachesAll | crates/warp-masque/src/pool.rs:260-265 | An empty result means nobody is ready iff the index sum does not wrap or n divides 2^64 |
| LoadBalancer.SteadyScan | crates/warp-masque/src/pool.rs:260-265 | Probes under separate locks choose as on one fixed ready set when nobody goes up or down meanwhile |
| LoadBalancer.LiveScanIs | crates/warp-masque/src/pool.rs:260-265 | The search returns what the first probe that found somebody up saw, None iff no probe did; probe o looks at index (start + o) mod 2^64 mod n |
| LoadBalancer.EmptyMeansSeenDown | crates/warp-masque/src/pool.rs:260-265 | With workers going up and down between the probes, an empty search that does not wrap has found every worker down at some moment of the call |
| Pool.Pool.Pick | crates/warp-masque/src/pool.rs:248-266 | With every access a step of its own (a select before the pin is read, other picks before the rotation is moved, workers going up and down between probes): the worker whose id is pinned, if found up, is returned with the rotation unmoved; otherwise `rr` advances by one and the search from there decides; None only if every worker was down at some moment of the call |
| Pool.Pool.PickMany | crates/warp-masque/src/pool.rs:248-266 | m successive calls with nothing pinned and the same workers up return each ready one's netstack exactly as often as its share, which over n calls is 1 + (run of down workers before it) |
| Pool.Pool.Select | crates/warp-masque/src/pool.rs:242-244 | Any id can be pinned, listed or not, and nothing else changes |
| Pool.Pool.RotateTarget | crates/warp-masque/src/pool.rs:279-292 | The named account, or for 0 the pinned one if listed, else the first; none only for an unknown id or an empty pool |
| Pool.Pool.Rotate | crates/warp-masque/src/pool.rs:279-300 | Even if accounts, the target included, come and go during the registration: only the target chosen before it changes, only in its configuration, and only if registration succeeds; that is the protocol's write step |
| Pool.Pool.Reconnect | crates/warp-masque/src/pool.rs:269-275 | The loop notifies everybody for 0, else the one listed worker with that id, and that is what the protocol's step owes |
| Pool.Pool.SetHttp2 | crates/warp-masque/src/pool.rs:305-308 | Even if accounts come and go after the store: everybody listed at the snapshot is owed a notification, as in the protocol's second step |
| Pool.Pool.StoreHttp2 | crates/warp-masque/src/pool.rs:306 | The store alone is the protocol's first step |
| Pool.Pool.ReserveId | crates/warp-masque/src/pool.rs:321-322 | An id never used before; the protocol's reservation step |
| SupervisionProofs.AddressedSnoc | crates/warp-masque/src/pool.rs:270-274 | One more worker adds itself to the notified ones iff it is addressed |
| SupervisionProofs.AddressedOne | crates/warp-masque/src/pool.rs:269-275 | Everybody for 0, else exactly the one listed worker with that id |
| Pool.Pool.SetRotateInterval | crates/warp-masque/src/pool.rs:311-318 | The interval is always 0 or at least 60, and larger requests are taken as they are |
| Pool.Pool.PushAccount | crates/warp-masque/src/pool.rs:327-328 | After registration, under the id reserved before: one more, unconnected worker at the end of the list; the protocol's push step |
| Pool.Pool.RemoveAccount | crates/warp-masque/src/pool.rs:337-353 | Refusals change nothing; success removes exactly the account, never the last, and is the protocol's removal step; the pin is reset iff it pointed there, a `select` in between being lost then and kept otherwise |
| Pool.Worker.ClearNet | crates/warp-masque/src/pool.rs:71-76 | Clears net and dead, keeps the dead tunnel and the address: the protocol's clear step of the woken supervisor |
| Pool.Worker.Install | crates/warp-masque/src/pool.rs:142-147 | All four slot fields take the generation just connected: the protocol's install step |
| Pool.Worker.SetConfig | crates/warp-masque/src/pool.rs:299 | Replaces the configuration only: the protocol's rotate step |
| Pool.RunRotator | crates/warp-masque/src/pool.rs:196-227 | Over a fixed membership there is one attempt per turn that finds rotation on before and after its sleep, and the k-th goes to account (idx + k) mod n |
| Pool.RotatesEachOnce | crates/warp-masque/src/pool.rs:213-219 | n consecutive attempts over n accounts hit each exactly once |
| Varint.EncodeVarint | crates/warp-masque/src/tunnel.rs:442-452 | The bytes of the bitwise-or-ed machine words are the RFC's form: length class, then big-endian value |
| Varint.OrTag | crates/warp-masque/src/tunnel.rs:445-450 | Or-ing the tag adds it in the two shorter classes and overwrites the two top bits in the longest |
| Varint.WireForm | crates/warp-masque/src/tunnel.rs:442-452 | Byte by byte: each form is the value in a word of 1, 2, 4 or 8 bytes, most significant first, the two top bits 00, 01, 10 or 11 |
| Bits.OrHigh | crates/warp-masque/src/tunnel.rs:477-478 | Or-ing a word whose k low bits are zero leaves the low bits alone |
| Bits.OrBit | crates/warp-masque/src/tunnel.rs:477-478 | A bit of the or is set iff it is in either operand |
| Varint.DecodeVarint | crates/warp-masque/src/tunnel.rs:469-481 | The cursor loop computes the decoded value and stops just behind it; on None it has not moved |
| Varint.RoundTrip | crates/warp-masque/src/tunnel.rs:442-481 | Decoding an encoding, whatever follows, gives the value back iff it is below 2^62, using varint_len bytes |
| Varint.RoundTripAs | crates/warp-masque/src/tunnel.rs:469-481 | Longer than necessary forms decode too |
| Varint.Minimal | crates/warp-masque/src/tunnel.rs:455-465 | Whatever decodes to v has at least varint_len(v) bytes, with equality only for encode_varint's form |
| Varint.DecodeExtends | crates/warp-masque/src/tunnel.rs:469-481 | A successful decode is unchanged by appended bytes |
| Varint.NoneIsTruncation | crates/warp-masque/src/tunnel.rs:467-473 | None iff the input is a proper prefix of some encoding |
| Framing.GreedyConcat | crates/warp-masque/src/h2tunnel.rs:203-213 | Chunk independence: parsing a first part and then rest + more equals one parse of the whole |
| Framing.RestIsStuck | crates/warp-masque/src/h2tunnel.rs:205 | What a greedy parse leaves over holds no whole frame |
| Framing.PrefixDelivers | crates/warp-masque/src/h2tunnel.rs:194-215 | Of any arrived prefix of a written stream exactly the complete frames are delivered, the rest being the unfinished frame |
| Capsules.ParseCapsule | crates/warp-masque/src/h2tunnel.rs:158-168 | The moving cursor computes type, offset and total of the capsule at the front, None if it is incomplete |
| Capsules.EncodeDatagramCapsule | crates/warp-masque/src/h2tunnel.rs:148-154 | Type 0, length, bare packet |
| Capsules.CapsuleBytes | crates/warp-masque/src/h2tunnel.rs:148-154 | Byte by byte: a zero byte, the length in its shortest form, the bare packet |
| Capsules.ParsedIsWhole | crates/warp-masque/src/h2tunnel.rs:158-168 | Whatever parses is a type and a length in some valid forms followed by as many bytes as the length says |
| Capsules.AnyCapsuleParses | crates/warp-masque/src/h2tunnel.rs:158-168 | Conversely every such string parses, with that type, offset and total |
| Capsules.CapsuleExtends | crates/warp-masque/src/h2tunnel.rs:158-168 | A parsed capsule is unchanged by appended bytes |
| Capsules.CapsuleRoundTrip | crates/warp-masque/src/h2tunnel.rs:145-168 | Every packet's capsule parses back to exactly that packet, whatever follows |
| Capsules.OversizedCapsule | crates/warp-masque/src/tunnel.rs:449-451 | From 2^62 bytes on the length field cannot carry the length |
| Capsules.AnyCapsule | crates/warp-masque/src/h2tunnel.rs:205-213 | In any valid integer forms DATAGRAM values are delivered, other types skipped whole, and parsing goes on right behind |
| Capsules.Drain | crates/warp-masque/src/h2tunnel.rs:205-213 | The inner loop stops, and delivers the greedy parse of the buffer, or a proper prefix of it if the receiver hangs up |
| Capsules.StreamSnoc | crates/warp-masque/src/h2tunnel.rs:197-201 | The stream is the data of the frames up to the first error, in order, and nothing behind it |
| Capsules.ReaderLoop | crates/warp-masque/src/h2tunnel.rs:194-215 | However the stream is cut into DATA frames, exactly the DATAGRAM values of one greedy parse of the whole are delivered, exactly its rest is kept, and that rest holds no whole capsule |
| Capsules.WriterLoop | crates/warp-masque/src/h2tunnel.rs:172-190 | At every exit the stream holds whole capsules of a prefix of the queue; as long as send_data accepts, writing stops short only where the stream is closed or grants nothing more, with too little capacity for the next capsule, however many grants before were too small |
| Capsules.SentOne | crates/warp-masque/src/h2tunnel.rs:186-188 | A capsule that fits the window goes out without waiting for a grant |
| Capsules.SentWaits | crates/warp-masque/src/h2tunnel.rs:180-185 | One that does not fit waits for the next grant, whatever its size, and only a closed or silent stream ends the waiting |
| Capsules.EverythingGoes | crates/warp-masque/src/h2tunnel.rs:176-188 | With windows that stay open and, one per packet, are large enough, the whole queue goes out |
| Capsules.EndToEnd | crates/warp-masque/src/h2tunnel.rs:172-215 | Whatever part of the writer's stream arrives, in whatever pieces, the reader delivers exactly the packets whose capsules are complete, and all of them if all of it arrives |
| Capsules.Transfer | crates/warp-masque/src/h2tunnel.rs:172-215 | The two loops joined over a fresh stream: out come the first packets queued, unchanged and in order, together with the kept bytes all that arrived; all packets sent once everything has arrived |
| Datagrams.SendIp | crates/warp-masque/src/tunnel.rs:388-392 | Quarter stream id, context 0, packet |
| Datagrams.TaggedBytes | crates/warp-masque/src/tunnel.rs:388-392 | Byte by byte: the stream's id in its shortest form, a zero byte, the packet |
| Datagrams.RecvIp | crates/warp-masque/src/tunnel.rs:407-426 | Returns the next packet of this stream and context, skipping everything else and losing nothing behind it |
| Datagrams.PayloadIff | crates/warp-masque/src/tunnel.rs:414-424 | On every byte string: a datagram carries a packet for the stream iff it is the stream's id and context 0, each in some valid form, in front of that packet |
| Datagrams.DemuxConcat | crates/warp-masque/src/tunnel.rs:407-426 | Datagrams are judged one by one, so a stray or broken one hides nothing behind it |
| Datagrams.Feed | crates/warp-masque/src/netstack.rs:247-254 | The feeder hands over exactly the stream's packets, in order |
| Datagrams.TaggedPayload | crates/warp-masque/src/tunnel.rs:388-426 | A framed packet is payload of its own stream and context, and of no other |
| Datagrams.MaxIpIsLargest | crates/warp-masque/src/tunnel.rs:379-385 | max_ip_packet is the size of the largest packet that fits the limit with its two ids, 0 without datagrams |
| Datagrams.MtuIsClamped | crates/warp-masque/src/netstack.rs:242 | The MTU is 576 below 576, 1280 above 1280, and what the path carries in between |
| Datagrams.DemuxInverts | crates/warp-masque/src/tunnel.rs:388-426 | Of everything sent on a connection a stream's reader gets exactly its own full packets, in order |
| Datagrams.FitsIff | crates/warp-masque/src/netstack.rs:242 | Every packet within the netstack's MTU, fixed from the limit at spawn, fits the limit at a send iff the path then carries a whole MTU |
| Datagrams.SteadyPathFitsIff | crates/warp-masque/src/netstack.rs:242 | With a limit that never changes every packet fits iff the path carries at least 576 bytes of packet |
| Datagrams.ShrunkenPath | crates/warp-masque/src/tunnel.rs:379-394 | A path shrinking from 1414 to 1162 bytes no longer takes every packet, though both carry more than 576 |
| NetstackProofs.StepKeeps | crates/warp-masque/src/netstack.rs:385-518 | Every command, poll, service step and reader step keeps the actor's invariant |
| NetstackProofs.RunKeeps | crates/warp-masque/src/netstack.rs:352-382 | The invariant holds along every run |
| NetstackTheorems.OutboundConserved | crates/warp-masque/src/netstack.rs:393-402 | Bytes accepted by the socket followed by `out_buf` are exactly the data of all Sends handled for the connection |
| NetstackTheorems.FinAfterData | crates/warp-masque/src/netstack.rs:506-508 | The first close() happens only after a Close and with every byte queued before that Close in the socket |
| NetstackTheorems.CloseIsDrained | crates/warp-masque/src/netstack.rs:506-508 | Every close(), also a repeated one or one whose connection is removed with it, is issued iff the connection is closing and everything queued so far is in the socket |
| NetstackTheorems.ServiceMakesProgress | crates/warp-masque/src/netstack.rs:483-508 | After a connection's service only the socket itself (full, or taking nothing) holds bytes back, and a closing connection not held back has been closed with all its data sent |
| NetstackTheorems.ReceivingEnds | crates/warp-masque/src/netstack.rs:494-504 | The receiving loop ends only with nothing readable, a read that yields nothing, 64 chunks in the channel, or no reader |
| NetstackInbound.ServiceTakesInbound | crates/warp-masque/src/netstack.rs:494-504 | Over every run: what a connection still has to read after its service was kept back by the socket, or by a channel that was full or had no reader when its receiving loop ended |
| NetstackTheorems.InboundConserved | crates/warp-masque/src/netstack.rs:493-504 | Handed out, then unread, then queued is exactly what was taken from the socket, at most 64 chunks of 1 to 8192 bytes; for a live connection that followed by what is readable in the socket is everything that arrived |
| NetstackTheorems.EmptyReadIsEof | crates/warp-masque/src/netstack.rs:102-122 | A read into a non-empty buffer yields nothing iff the connection is gone and all bytes taken from its socket have been handed out |
| NetstackTheorems.EndOfStream | crates/warp-masque/src/netstack.rs:509-515 | Of a removed connection: what was taken followed by what the socket still held is everything that arrived, so a finished reader has it all iff nothing was held; outbound, what the socket accepted followed by what waited is everything queued |
| NetstackInbound.CompleteIff | crates/warp-masque/src/netstack.rs:494-515 | Over every run: at end of stream a reader has everything that ever arrived iff no removal of its connection found bytes still readable |
| NetstackInbound.LastByteLost | crates/warp-masque/src/netstack.rs:494-515 | A run in which 65 bytes arrive, 64 fill the channel and the removal takes the last one along |
| NetstackTheorems.TableAgrees | crates/warp-masque/src/netstack.rs:413-441 | Live sockets are exactly the connections' and the resolver's, so no lookup of a listed connection fails |
| NetstackTheorems.ReplyLedger | crates/warp-masque/src/netstack.rs:469-481 | Every connect's reply is in exactly one place: held, sent once, or dropped |
| NetstackTheorems.OkMeansEstablished | crates/warp-masque/src/netstack.rs:470-473 | Over every run, success was reported only on an observed Established, to the connect it belongs to |
| NetstackReplies.ConnectedIff | crates/warp-masque/src/netstack.rs:469-473 | Over every run: a connect is answered with success iff some service of its connection found the socket established |
| NetstackReplies.RefusedIff | crates/warp-masque/src/netstack.rs:437-481 | Over every run: a connect is answered with a refusal iff it was refused at once, or some service found its socket dead and none found it established |
| NetstackReplies.RemovedIff | crates/warp-masque/src/netstack.rs:506-516 | Over every run: a service removes its connection iff the connect was refused, the socket is closed, or the close() now due closes a socket that has only sent its SYN |
| NetstackReplies.PassedOver | crates/warp-masque/src/netstack.rs:469-481 | A reachable state whose service passes over a connect on a socket already in CloseWait |
| NetstackTheorems.DroppedIff | crates/warp-masque/src/netstack.rs:506-516 | In every reachable state, a step drops a reply unanswered iff it ends the service of a connection that is closing with nothing queued while its connect is unanswered and its socket still in SynSent |
| NetstackClients.SpoilsIff | crates/warp-masque/src/netstack.rs:393-402 | A Send or Close changes a connection of another connect iff its handle is listed under that one and it queues bytes or is the first Close; nothing else changes |
| NetstackClients.IsolationIff | crates/warp-masque/src/netstack.rs:393-402 | Over every run of commands from stream objects: every connection carries exactly its own client's bytes and closes iff its own client asked, at every moment, iff no command spoils a foreign connection |
| NetstackClients.StreamIsOwn | crates/warp-masque/src/netstack.rs:393-508 | Without spoiling commands, what the socket accepted followed by what waits is exactly what the connection's own client sent, in order, and a FIN comes only if that client asked |
| NetstackClients.AnsweredExactlyOnce | crates/warp-masque/src/netstack.rs:80-98 | If commands come from stream objects and no other client's Close reaches its connection, a connect is still held by a live connection or was answered exactly once |
| NetstackClients.HandleReused | crates/warp-masque/src/netstack.rs:211-237 | A run after which a client that was reset holds the handle of the next connect: its bytes and its Close go there |
| NetstackClients.StaleCloseDropsReply | crates/warp-masque/src/netstack.rs:233-237 | A run in which dropping that stale stream object makes the next connect's reply vanish |
| NetstackPorts.PortCycle | crates/warp-masque/src/netstack.rs:341-349 | Over every run: after k connects, the next one gets port 49152 + k mod 16384 |
| NetstackPorts.PortIs | crates/warp-masque/src/netstack.rs:415-424 | The local port of every listed connection is that of its own connect's number |
| NetstackPorts.PortsClashIff | crates/warp-masque/src/netstack.rs:341-349 | Two live connections share their local port iff a multiple of 16384 connects lies between theirs |
| NetstackPorts.SharedPort | crates/warp-masque/src/netstack.rs:341-349 | A reachable state in which two live connections do |
| NetstackActor.Actor.HandleConnect | crates/warp-masque/src/netstack.rs:407-442 | The object takes exactly the machine's Connect step, on success and on refusal, with the allocator's current port |
| NetstackActor.Actor.HandleSend | crates/warp-masque/src/netstack.rs:393-397 | The object takes exactly the machine's Send step; unknown handles are ignored |
| NetstackActor.Actor.HandleClose | crates/warp-masque/src/netstack.rs:398-402 | The object takes exactly the machine's Close step |
| NetstackActor.Actor.HandleResolve | crates/warp-masque/src/netstack.rs:444-459 | The object takes exactly the resolver's Resolve step: literal, started query or refusal |
| NetstackActor.Actor.AnswerConnect | crates/warp-masque/src/netstack.rs:469-481 | The object takes exactly the machine's Answer step: Ok, refusal with removal, or nothing yet |
| NetstackActor.Actor.SendLoop | crates/warp-masque/src/netstack.rs:483-491 | The loop stops and is a run of machine steps that ends only with nothing left, a full socket, or a send that takes nothing |
| NetstackActor.Actor.RecvLoop | crates/warp-masque/src/netstack.rs:493-504 | The loop stops and is a run of machine steps, each on a permit, that ends only with nothing readable, no permit, or a read that yields nothing; readers may run in between |
| NetstackActor.Actor.FinishOne | crates/warp-masque/src/netstack.rs:506-516 | Closing and freeing are exactly the machine's Finish step; no other connection goes |
| NetstackActor.Actor.ServiceSockets | crates/warp-masque/src/netstack.rs:461-518 | Although entries vanish during the walk, it runs without a failing lookup, serves every connection of the snapshot exactly once, and is a run of the machine |
| NetstackActor.Actor.ServiceDns | crates/warp-masque/src/netstack.rs:520-542 | The index walk with removals stops and does exactly the resolver's Service step |
| NetstackActor.Actor.NextEphemeralPort | crates/warp-masque/src/netstack.rs:341-349 | Hands out the current port and stays in 49152..65535 |
| Resolver.ResolverRuns | crates/warp-masque/src/netstack.rs:520-542 | Over every run waiting requests and live slots match one to one, no request is answered twice, and a service keeps exactly the unfinished ones |
| Resolver.NeverForgotten | crates/warp-masque/src/netstack.rs:444-459 | Over every run: a request once made is waiting or has been answered, exactly once in all, after any further events |
| Resolver.AnswersStay | crates/warp-masque/src/netstack.rs:520-542 | Replies once sent are never changed, moved or taken back |
| Resolver.LookupAnswer | crates/warp-masque/src/netstack.rs:526-538 | Over every run, from its events: a name looked up is answered, at the next service after its query's outcome, with the first address found, or that there is none, or that the lookup failed |
| Resolver.ImmediateAnswer | crates/warp-masque/src/netstack.rs:444-457 | A literal address is answered with itself, a query that cannot be started with an error, at once and for good |
| Resolver.SkipOne | crates/warp-masque/src/netstack.rs:534 | Passing over a pending query leaves the same work to be done from the next index |
| Resolver.DropOne | crates/warp-masque/src/netstack.rs:525-538 | Removing a finished query, answering it and going on at the same index leaves the same work to be done |
| Resolver.DropMatched | crates/warp-masque/src/netstack.rs:525-538 | Removing a finished query keeps waiting requests and live slots matched one to one, so no freed query is polled |
| TcpConn.TcpConn.PollRead | crates/warp-masque/src/netstack.rs:102-122 | The machine's read step: the next bytes received, as many as fit or the current chunk holds, empty only at end of stream, pending only when all was handed out |
| TcpConn.TcpConn.PollWrite | crates/warp-masque/src/netstack.rs:126-138 | Takes all bytes as one Send, or fails and sends nothing |
| TcpConn.TcpConn.PollShutdown | crates/warp-masque/src/netstack.rs:144-149 | Sends one Close after everything written before |
| Checksum.ComputeChecksum | crates/warp-masque/examples/egress_probe.rs:138-152 | Both loops stop and give the complement of the folded word sum on wrapping 32-bit words, which is the checksum of RFC 1071 wherever the sum fits, so always up to 131074 bytes |
| Checksum.Fold | crates/warp-masque/examples/egress_probe.rs:148-151 | The fold is below 2^16, congruent to the sum modulo 65535, and 0 only for 0 |
| Checksum.WordSumBound | crates/warp-masque/examples/egress_probe.rs:139-147 | The sum of n bytes is at most 65535 times the number of words |
| Checksum.WordSumConcat | crates/warp-masque/examples/egress_probe.rs:141-147 | The sum goes word by word |
| Checksum.WordSumWord | crates/warp-masque/examples/egress_probe.rs:142-147 | A word's first byte is its high byte, and an odd last byte is a word's high byte |
| Checksum.ChecksumComplements | crates/warp-masque/examples/egress_probe.rs:137-152 | Adding the checksum to the sum gives a multiple of 65535, and it is 0 for exactly the positive sums that are one |
| Checksum.SumFitsIff | crates/warp-masque/examples/egress_probe.rs:139-147 | The 32-bit sum cannot overflow on any n bytes iff n is at most 131074 |
| Packets.BuildIpv4Udp | crates/warp-masque/examples/egress_probe.rs:106-135 | For payloads of any length, by byte positions: version, lengths, flags, TTL, protocol, both addresses, both ports and the payload are where RFC 791 and RFC 768 put them; with its checksums it is the specified packet wherever the 32-bit sum fits, so always up to 131074 checksummed bytes |
| Packets.ChecksumSeals | crates/warp-masque/examples/egress_probe.rs:137-152 | A block whose zeroed field is overwritten by its checksum (or by 0xffff for 0) re-checksums to 0 |
| Packets.HeaderVerifies | crates/warp-masque/examples/egress_probe.rs:110-124 | Every header built re-checksums to 0 |
| Packets.UdpVerifies | crates/warp-masque/examples/egress_probe.rs:126-166 | Every datagram built re-checksums to 0 with its pseudo-header, for odd lengths and the 0 to 0xffff case too, and its field is never 0 |
| Packets.PacketVerifies | crates/warp-masque/examples/egress_probe.rs:106-166 | From the packet's own bytes: the header re-checksums to 0, and so do the addresses, protocol, UDP length field and datagram, and the UDP field is never 0 |
| Packets.LengthFields | crates/warp-masque/examples/egress_probe.rs:107-114 | Up to 65535 bytes both length fields state the true lengths |
| Packets.ExtractInvertsBuild | crates/warp-masque/examples/egress_probe.rs:171-185 | A packet built is extracted, whole, for exactly its own source address and port |
| Packets.ExtractIff | crates/warp-masque/examples/egress_probe.rs:171-185 | On every byte string, by byte positions: a payload is extracted iff this is IPv4 of protocol 17 from that address whose header, options included, is followed by at least 8 bytes starting with that port, and it is what follows those 8 |
| DnsText.SkipNameLoop | crates/warp-masque/examples/egress_probe.rs:223-234 | Stops and stays in bounds on every byte string, from every position |
| DnsText.SkipsName | crates/warp-masque/examples/egress_probe.rs:223-234 | Every well-formed name, ending at the root or in a pointer, is skipped exactly |
| DnsText.SkipNameIff | crates/warp-masque/examples/egress_probe.rs:223-234 | On every byte string: skip_name stops at an offset iff labels of 1 to 191 bytes and a zero byte or a pointer stand just before it |
| DnsText.BuildDnsTxtQuery | crates/warp-masque/examples/egress_probe.rs:90-104 | Byte by byte: the id, recursion desired, one question and no records; the encoded name and its zero byte; TXT and the class |
| DnsText.SplitJoins | crates/warp-masque/examples/egress_probe.rs:96 | The labels joined with dots are the name, and no label holds a dot |
| DnsText.LabelBytes | crates/warp-masque/examples/egress_probe.rs:97-98 | A label on the wire is its length byte and its bytes |
| DnsText.LabelsConcat | crates/warp-masque/examples/egress_probe.rs:96-99 | Labels stand on the wire one after another |
| DnsText.QueryNameSkips | crates/warp-masque/examples/egress_probe.rs:90-104 | In every query built from labels of 1 to 63 bytes the name is skipped to just before QTYPE |
| DnsText.ParseFirstTxt | crates/warp-masque/examples/egress_probe.rs:188-219 | Stops and stays in bounds on every byte string |
| DnsText.FirstTxtIff | crates/warp-masque/examples/egress_probe.rs:188-219 | On every byte string: a string is returned iff it starts the first TXT record with data among the announced answers, all records up to it lying inside the message |
| DnsText.ParsesResponse | crates/warp-masque/examples/egress_probe.rs:188-219 | On every well-formed one-question response the first string of the first TXT answer is returned, None iff there is none |

## Left out

- TLS, keys, pinning, registration, DoH, trace fetching, configuration files, the daemon: cryptography and I/O; registration and connecting are "succeeds with something or fails".
- QUIC, HTTP/3 and HTTP/2 handshakes and smoltcp's own protocol engines: seen through the contracts listed above only.
- The SOCKS5 server and the control API: straight-line request parsing, easy members only.
- Trace freshness and `pool.status`: the code promises no order between background traces and rebuilds.
- Wall-clock time and liveness under real schedulers: sleeps and time-outs are events; `SupervisionProgress` bounds steps, not time.
- Relaxed memory order: atomics are sequentially consistent events.
- Wrap-around of `next_id` and of the rotator's `idx`: counters other than `rr` are unbounded.
- `TcpConn::recv` and `into_split`: same channel without the buffer; mixing them with `poll_read` is not modelled.
- `Cmd::Inbound`, the device queues and egress of packets: a move between queues, then smoltcp.
- Decoding the TXT bytes as UTF-8: the bytes themselves are returned.
- Targets with 32-bit `usize`: lengths are 64-bit.
- LoadBalancer.FairShare: one fixed ready set per window; with workers going up or down inside a window only `EmptyMeansSeenDown` is stated.
- Capsules.WriterLoop: the outcomes of `poll_capacity` are a finite sequence; a writer waiting for ever is one that stops there.
- Pool.Pool.Rotate: of the tasks that run during the registration only those that change the list of accounts are seen; those that change the target worker itself are in `Supervision`.
- Overflow checks of debug builds: `checksum` and `pick` are release builds, whose words wrap.
