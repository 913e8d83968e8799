/** The smoltcp actor as a state machine. smoltcp itself is seen through contracts only: between
    two of the actor's steps a socket may change state and receive bytes at will, send_slice takes
    some prefix, recv_slice yields some prefix, and a new socket gets a handle that is not live. */
module Netstack {
  import opened Options
  import opened Varint

  type Handle = nat
  type Chunk = seq<byte>

  const RECV_CHUNK: nat := 8 * 1024
  const CHAN_DEPTH: nat := 64
  const FIRST_PORT: nat := 49152
  const LAST_PORT: nat := 65535

  datatype TcpState =
    | Closed | Listen | SynSent | SynReceived | Established
    | FinWait1 | FinWait2 | CloseWait | Closing | LastAck | TimeWait

  predicate IsActive(state: TcpState) {
    !state.Closed? && !state.TimeWait? && !state.Listen?
  }

  /** What close() does to a socket's state at once. */
  function AfterClose(state: TcpState): TcpState {
    match state
    case Listen => Closed
    case SynSent => Closed
    case SynReceived => FinWait1
    case Established => FinWait1
    case CloseWait => LastAck
    case _ => state
  }

  /** A TCP socket: its local port, its state, how many bytes it would still take, and what can be read from it.
      `accepts` and `gives` foretell how many more send_slice and recv_slice calls move anything
      before one returns Ok(0) or an error.
      `arrived`, `tx` and `taken` are histories: every byte that ever became readable, every byte it ever
      accepted, every byte ever read out of it.
      `fin` is how many bytes it had accepted when close() was first called. */
  datatype Sock = Sock(port: nat, state: TcpState, room: nat, accepts: nat, rx: seq<byte>, gives: nat,
                       arrived: seq<byte>, tx: seq<byte>, taken: seq<byte>, fin: Option<nat>)

  datatype Socket = Tcp(sock: Sock) | Dns

  /** The actor's side of a connection. `id` names the Connect command it came from and with it
      the reply and the byte channel. `queued` (all data of handled Sends) and `closeAt` (how much
      of it was queued when the first Close was handled) are histories. */
  datatype Conn = Conn(id: nat, outBuf: seq<byte>, replyHeld: bool, closing: bool, queued: seq<byte>, closeAt: Option<nat>)

  /** What a connection looked like when it was removed: all bytes that had arrived and those of them
      still in the socket; all bytes queued, those the socket had accepted and those it had not. */
  datatype End = End(arrived: seq<byte>, left: seq<byte>, queued: seq<byte>, accepted: seq<byte>, unsent: seq<byte>)

  /** The channel to the reader together with the reader's buffer. `received`, `out` and `end` are
      histories: bytes put into the channel, bytes handed out by poll_read, the connection's end. */
  datatype Pipe = Pipe(queue: seq<Chunk>, senderAlive: bool, receiverAlive: bool,
                       readBuf: Chunk, readPos: nat, received: seq<byte>, out: seq<byte>, end: Option<End>)

  datatype Outcome = Connected(h: Handle) | Refused

  datatype Reply = Reply(id: nat, outcome: Outcome)

  datatype Stage = Sending | Receiving | Ending

  /** Where service_sockets stands: between connections, or inside its loop body for h. */
  datatype Cursor = Idle | Serving(h: Handle, stage: Stage, remove: bool)

  datatype Net = Net(
    sockets: map<Handle, Socket>,
    dnsHandle: Handle,
    conns: map<Handle, Conn>,
    nextPort: nat,
    pipes: map<nat, Pipe>,   // by connection id; a pipe outlives its connection
    replies: seq<Reply>,     // every connect reply sent so far
    dropped: set<nat>,       // connects whose reply was dropped unanswered
    cursor: Cursor
  )

  function Start(dnsHandle: Handle): Net {
    Net(map[dnsHandle := Dns], dnsHandle, map[], FIRST_PORT, map[], [], {}, Idle)
  }

  function Flat(chunks: seq<Chunk>): seq<byte> {
    if chunks == [] then [] else chunks[0] + Flat(chunks[1..])
  }

  function NextPort(port: nat): nat {
    if port == LAST_PORT then FIRST_PORT else port + 1
  }

  // ---- poll_read ----------------------------------------------------------

  datatype ReadResult = Pending | Ready(data: seq<byte>)

  function Min(a: nat, b: nat): nat {
    if a < b then a else b
  }

  /** Hands out at most `room` bytes of the current chunk. */
  function HandOut(p: Pipe, room: nat): (Pipe, ReadResult)
    requires p.readPos <= |p.readBuf|
  {
    var n := Min(room, |p.readBuf| - p.readPos);
    var data := p.readBuf[p.readPos..p.readPos + n];
    (p.(readPos := p.readPos + n, out := p.out + data), Ready(data))
  }

  function PollRead(p: Pipe, room: nat): (Pipe, ReadResult) {
    if p.readPos >= |p.readBuf| then
      if p.queue != [] then HandOut(p.(readBuf := p.queue[0], readPos := 0, queue := p.queue[1..]), room)
      else if !p.senderAlive then (p, Ready([]))
      else (p, Pending)
    else HandOut(p, room)
  }

  // ---- events -------------------------------------------------------------

  datatype Event =
    // commands; `from` is the connect whose stream object issued the command, which the actor cannot see
    | Connect(id: nat, slot: Handle, accepted: bool)  // slot: the handle SocketSet::add hands out
    | Send(from: nat, h: Handle, data: seq<byte>)
    | Close(from: nat, h: Handle)
    // iface.poll, as far as one socket sees it
    | Progress(h: Handle, state: TcpState, room: nat, accepts: nat, arrived: seq<byte>, gives: nat)
    // service_sockets, loop by loop
    | Answer(h: Handle)
    | SendSome(n: nat)
    | EndSend
    | RecvSome(n: nat)
    | EndRecv
    | Finish
    // the reading side, at any moment
    | ReaderPolls(id: nat, space: nat)
    | ReaderHangsUp(id: nat)

  predicate IsConn(n: Net, h: Handle) {
    h in n.conns && h in n.sockets && n.sockets[h].Tcp? && n.conns[h].id in n.pipes
  }

  function SetSock(n: Net, h: Handle, sock: Sock): Net {
    n.(sockets := n.sockets[h := Tcp(sock)])
  }

  function SetConn(n: Net, h: Handle, conn: Conn): Net {
    n.(conns := n.conns[h := conn])
  }

  function SetPipe(n: Net, id: nat, pipe: Pipe): Net {
    n.(pipes := n.pipes[id := pipe])
  }

  /** A socket that has just sent its SYN. */
  function NewSock(port: nat): Sock {
    Sock(port, SynSent, 0, 0, [], 0, [], [], [], None)
  }

  /** The channel of a connect under way, and one closed before it carried anything. */
  const FRESH_PIPE := Pipe([], true, true, [], 0, [], [], None)
  const CLOSED_PIPE := Pipe([], false, true, [], 0, [], [], Some(End([], [], [], [], [])))

  /** What is left of a channel when its connection is removed. */
  function Ended(pipe: Pipe, sock: Sock, conn: Conn): Pipe {
    pipe.(senderAlive := false, end := Some(End(sock.arrived, sock.rx, conn.queued, sock.tx, conn.outBuf)))
  }

  /** handle_connect; a refused connect frees its socket again and is answered at once. */
  function HandleConnect(n: Net, id: nat, slot: Handle, accepted: bool): Option<Net> {
    if n.cursor != Idle || slot in n.sockets || id in n.pipes then None
    else if accepted then
      Some(n.(sockets := n.sockets[slot := Tcp(NewSock(n.nextPort))],
              conns := n.conns[slot := Conn(id, [], true, false, [], None)],
              pipes := n.pipes[id := FRESH_PIPE],
              nextPort := NextPort(n.nextPort)))
    else
      Some(n.(pipes := n.pipes[id := CLOSED_PIPE],
              replies := n.replies + [Reply(id, Refused)],
              nextPort := NextPort(n.nextPort)))
  }

  /** Commands for a handle without connection are ignored. */
  function HandleSend(n: Net, h: Handle, data: seq<byte>): Option<Net> {
    if n.cursor != Idle then None
    else if h !in n.conns then Some(n)
    else
      var conn := n.conns[h];
      Some(SetConn(n, h, conn.(outBuf := conn.outBuf + data, queued := conn.queued + data)))
  }

  function HandleClose(n: Net, h: Handle): Option<Net> {
    if n.cursor != Idle then None
    else if h !in n.conns then Some(n)
    else
      var conn := n.conns[h];
      Some(SetConn(n, h, conn.(closing := true,
                               closeAt := if conn.closing then conn.closeAt else Some(|conn.queued|))))
  }

  /** Answers a pending connect: Ok once established, an error once dead; the latter marks for removal. */
  function AnswerConnect(n: Net, h: Handle): Option<Net> {
    if n.cursor != Idle || !IsConn(n, h) then None
    else
      var conn, state := n.conns[h], n.sockets[h].sock.state;
      if conn.replyHeld && state == Established then
        Some(SetConn(n, h, conn.(replyHeld := false))
             .(replies := n.replies + [Reply(conn.id, Connected(h))], cursor := Serving(h, Sending, false)))
      else if conn.replyHeld && !IsActive(state) then
        Some(SetConn(n, h, conn.(replyHeld := false))
             .(replies := n.replies + [Reply(conn.id, Refused)], cursor := Serving(h, Sending, true)))
      else Some(n.(cursor := Serving(h, Sending, false)))
  }

  function SendStep(n: Net, k: nat): Option<Net> {
    if !n.cursor.Serving? || n.cursor.stage != Sending || !IsConn(n, n.cursor.h) then None
    else
      var h := n.cursor.h;
      var sock, conn := n.sockets[h].sock, n.conns[h];
      if !(sock.accepts > 0 && 1 <= k <= sock.room && k <= |conn.outBuf|) then None
      else Some(SetConn(SetSock(n, h, sock.(room := sock.room - k, accepts := sock.accepts - 1, tx := sock.tx + conn.outBuf[..k])),
                        h, conn.(outBuf := conn.outBuf[k..])))
  }

  /** The sending loop ends only when the socket is full, all is sent, or send_slice takes nothing. */
  function SendEnds(n: Net): Option<Net> {
    if !n.cursor.Serving? || n.cursor.stage != Sending || !IsConn(n, n.cursor.h) then None
    else if n.sockets[n.cursor.h].sock.accepts == 0 || n.sockets[n.cursor.h].sock.room == 0 || n.conns[n.cursor.h].outBuf == []
    then Some(n.(cursor := n.cursor.(stage := Receiving)))
    else None
  }

  predicate HasPermit(p: Pipe) {
    |p.queue| < CHAN_DEPTH && p.receiverAlive
  }

  function RecvStep(n: Net, k: nat): Option<Net> {
    if !n.cursor.Serving? || n.cursor.stage != Receiving || !IsConn(n, n.cursor.h) then None
    else
      var h := n.cursor.h;
      var sock, id := n.sockets[h].sock, n.conns[h].id;
      var pipe := n.pipes[id];
      if !(sock.gives > 0 && 1 <= k <= RECV_CHUNK && k <= |sock.rx| && HasPermit(pipe)) then None
      else Some(SetPipe(SetSock(n, h, sock.(rx := sock.rx[k..], gives := sock.gives - 1, taken := sock.taken + sock.rx[..k])),
                        id, pipe.(queue := pipe.queue + [sock.rx[..k]], received := pipe.received + sock.rx[..k])))
  }

  /** The receiving loop ends only when nothing is readable, no permit is free, or recv_slice yields nothing. */
  function RecvEnds(n: Net): Option<Net> {
    if !n.cursor.Serving? || n.cursor.stage != Receiving || !IsConn(n, n.cursor.h) then None
    else if n.sockets[n.cursor.h].sock.gives == 0 || n.sockets[n.cursor.h].sock.rx == [] || !HasPermit(n.pipes[n.conns[n.cursor.h].id])
    then Some(n.(cursor := n.cursor.(stage := Ending)))
    else None
  }

  /** The guard of close() at the end of the loop body. */
  predicate CallsClose(conn: Conn) {
    conn.closing && conn.outBuf == []
  }

  function AfterService(sock: Sock, conn: Conn): Sock {
    if CallsClose(conn)
    then sock.(state := AfterClose(sock.state), fin := if sock.fin.Some? then sock.fin else Some(|sock.tx|))
    else sock
  }

  /** The end of the loop body: close if asked to and all is sent; free what is closed. */
  function FinishService(n: Net): Option<Net> {
    if !n.cursor.Serving? || n.cursor.stage != Ending || !IsConn(n, n.cursor.h) then None
    else
      var h := n.cursor.h;
      var conn, sock := n.conns[h], AfterService(n.sockets[h].sock, n.conns[h]);
      if n.cursor.remove || sock.state == Closed then
        Some(n.(sockets := n.sockets - {h}, conns := n.conns - {h},
                pipes := n.pipes[conn.id := Ended(n.pipes[conn.id], sock, conn)],
                dropped := if conn.replyHeld then n.dropped + {conn.id} else n.dropped,
                cursor := Idle))
      else Some(SetSock(n, h, sock).(cursor := Idle))
  }

  /** The state after an event, or None when the event is not enabled. */
  function Apply(n: Net, e: Event): Option<Net> {
    match e
    case Connect(id, slot, accepted) => HandleConnect(n, id, slot, accepted)
    case Send(_, h, data) => HandleSend(n, h, data)
    case Close(_, h) => HandleClose(n, h)
    case Progress(h, state, room, accepts, arrived, gives) =>
      if n.cursor != Idle || h !in n.sockets || !n.sockets[h].Tcp? then None
      else
        var sock := n.sockets[h].sock;
        Some(SetSock(n, h, sock.(state := state, room := room, accepts := accepts, gives := gives,
                                   rx := sock.rx + arrived, arrived := sock.arrived + arrived)))
    case Answer(h) => AnswerConnect(n, h)
    case SendSome(k) => SendStep(n, k)
    case EndSend => SendEnds(n)
    case RecvSome(k) => RecvStep(n, k)
    case EndRecv => RecvEnds(n)
    case Finish => FinishService(n)
    case ReaderPolls(id, space) =>
      if id in n.pipes && n.pipes[id].receiverAlive then Some(SetPipe(n, id, PollRead(n.pipes[id], space).0)) else None
    case ReaderHangsUp(id) =>
      if id in n.pipes then Some(SetPipe(n, id, n.pipes[id].(receiverAlive := false))) else None
  }

  function Run(n: Net, es: seq<Event>): Option<Net>
    decreases |es|
  {
    if es == [] then Some(n) else
    match Run(n, es[..|es| - 1])
    case None => None
    case Some(mid) => Apply(mid, es[|es| - 1])
  }
}
