/**
  The harness PeerManager as a state machine on values: file descriptors with tombstones, the
  accept/connect rendezvous, and per-connection byte queues with parked reads.

  Callbacks are tokens. What an operation posts to the bus and which callbacks it calls, in order,
  is its `log`.
*/
module PeerModel {
  import opened Arith
  import opened Option

  /** Bus addresses; they are only ever compared. */
  type NodeId = nat
  type Bytes = seq<bv8>
  type Callback = nat

  /** Kinds of frames on the bus; none of them names a connection. */
  datatype Frame = Connect | Accepted | Data(bytes: Bytes) | Close | Unknown

  datatype Recv = Recv(len: nat, cb: Callback)

  datatype Conn = Conn(
    remote: NodeId, closed: bool, queue: seq<Bytes>, queuedBytes: int,
    wake: Option<Recv>, accepted: Option<Callback>)

  datatype Output =
    | Posted(to: NodeId, frame: Frame)
    | ConnectDone(cb: Callback, fd: int)
    | AcceptDone(cb: Callback, fd: int)
    | Wrote(cb: Callback, bytes: Bytes)
    | RecvDone(cb: Callback, ok: bool)

  datatype Node = Node(
    conns: map<nat, Conn>, byRemote: map<NodeId, nat>, readyFds: seq<nat>, acceptWaiters: seq<Callback>,
    nextFd: nat, opens: map<nat, nat>, accepts: map<nat, nat>, closes: map<nat, nat>, log: seq<Output>)

  /** How much one `send` takes. */
  const SEND_CHUNK_BYTES: nat := 256 * 1024

  function Count(counter: map<nat, nat>, fd: nat): nat { if fd in counter then counter[fd] else 0 }

  function Bump(counter: map<nat, nat>, fd: nat): map<nat, nat> { counter[fd := Count(counter, fd) + 1] }

  function Init(): Node {
    Node(map[], map[], [], [], 0, map[], map[], map[], [])
  }

  // ----- fd numbers -----

  datatype FdScan = Found(fd: nat, next: nat) | Full(next: nat)

  /** The cyclic scan: at most `left` numbers are tried, starting at `next`. */
  function ScanFds(taken: set<nat>, fdMax: nat, next: nat, left: nat): (scan: FdScan)
    ensures scan.Found? ==> scan.fd !in taken
    decreases left
  {
    if left == 0 then Full(next)
    else
      var fd := if next >= fdMax then 0 else next;
      if fd !in taken then Found(fd, fd + 1) else ScanFds(taken, fdMax, fd + 1, left - 1)
  }

  function NewFd(n: Node, fdMax: nat): FdScan { ScanFds(n.conns.Keys, fdMax, n.nextFd, fdMax) }

  /** `fd` comes before any other free number when counting up cyclically from `next`. */
  ghost predicate FirstFree(taken: set<nat>, fdMax: nat, next: nat, fd: nat) {
    && fd < fdMax && fd !in taken
    && (forall x: nat :: x < fdMax && (if next <= fd then next <= x < fd else next <= x || x < fd) ==> x in taken)
  }

  lemma {:induction false} ScanFinds(taken: set<nat>, fdMax: nat, next: nat, left: nat)
    requires next <= fdMax && left <= fdMax
    ensures match ScanFds(taken, fdMax, next, left)
            case Found(fd, next') => FirstFree(taken, fdMax, next, fd) && next' == fd + 1
            case Full(next') =>
              next' <= fdMax && forall x: nat :: x < fdMax && (next <= x < next + left || x + fdMax < next + left) ==> x in taken
    decreases left
  {
    if left > 0 {
      var fd := if next >= fdMax then 0 else next;
      if fd in taken {
        ScanFinds(taken, fdMax, fd + 1, left - 1);
      }
    }
  }

  /** A new number is the cyclically first free one; there is none exactly when all are reserved. */
  lemma NewFdIsFirstFree(n: Node, fdMax: nat)
    requires n.nextFd <= fdMax
    ensures match NewFd(n, fdMax)
            case Found(fd, next) => FirstFree(n.conns.Keys, fdMax, n.nextFd, fd) && next == fd + 1 <= fdMax
            case Full(next) => next <= fdMax && forall fd: nat :: fd < fdMax ==> fd in n.conns
    ensures NewFd(n, fdMax).Full? <==> forall fd: nat :: fd < fdMax ==> fd in n.conns
  {
    ScanFinds(n.conns.Keys, fdMax, n.nextFd, fdMax);
  }

  // ----- connections -----

  /** A list without the first occurrence of a number. */
  function Without(fds: seq<nat>, fd: nat): seq<nat> {
    if fds == [] then [] else if fds[0] == fd then fds[1..] else [fds[0]] + Without(fds[1..], fd)
  }

  function WakeFalse(wake: Option<Recv>): seq<Output> {
    if wake.Some? then [RecvDone(wake.value.cb, false)] else []
  }

  function AcceptedFalse(accepted: Option<Callback>): seq<Output> {
    if accepted.Some? then [ConnectDone(accepted.value, -1)] else []
  }

  /** A connection that carries no more data and owes no more callbacks. */
  function Dead(conn: Conn): Conn {
    conn.(closed := true, queue := [], queuedBytes := 0, wake := None, accepted := None)
  }

  function Unlinked(byRemote: map<NodeId, nat>, remote: NodeId, fd: nat): map<NodeId, nat> {
    if remote in byRemote && byRemote[remote] == fd then byRemote - {remote} else byRemote
  }

  function Tombstone(n: Node, fd: nat): Node
    requires fd in n.conns
  {
    var conn := n.conns[fd];
    if conn.closed then n
    else
      n.(conns := n.conns[fd := Dead(conn)],
         byRemote := Unlinked(n.byRemote, conn.remote, fd),
         readyFds := Without(n.readyFds, fd),
         log := n.log + WakeFalse(conn.wake) + AcceptedFalse(conn.accepted))
  }

  /** Only one connection per remote is alive: the previous one is tombstoned first. */
  function Supersede(n: Node, remote: NodeId): Node {
    if remote in n.byRemote && n.byRemote[remote] in n.conns then Tombstone(n, n.byRemote[remote]) else n
  }

  function CreateConn(n: Node, fd: nat, remote: NodeId): Node {
    var m := Supersede(n, remote);
    m.(conns := m.conns[fd := Conn(remote, false, [], 0, None, None)],
       byRemote := m.byRemote[remote := fd],
       opens := Bump(m.opens, fd))
  }

  function Settles(n: Node, fd: nat): bool { fd in n.conns && !n.conns[fd].closed }

  function SettleAccept(n: Node, fd: nat, cb: Callback): Node {
    if Settles(n, fd)
    then n.(log := n.log + [Posted(n.conns[fd].remote, Accepted), AcceptDone(cb, fd)], accepts := Bump(n.accepts, fd))
    else n
  }

  function HandleConnect(n: Node, fdMax: nat, remote: NodeId): Node {
    match NewFd(n, fdMax)
    case Full(next) => n.(nextFd := next)
    case Found(fd, next) =>
      var m := CreateConn(n.(nextFd := next), fd, remote);
      if m.acceptWaiters != [] then
        var waiter := m.acceptWaiters[0];
        var popped := m.(acceptWaiters := m.acceptWaiters[1..]);
        if Settles(popped, fd) then SettleAccept(popped, fd, waiter)
        else popped.(acceptWaiters := [waiter] + popped.acceptWaiters)
      else m.(readyFds := m.readyFds + [fd])
  }

  // ----- reading -----

  datatype Drained = Drained(pieces: seq<Bytes>, queue: seq<Bytes>, written: nat)

  /** Up to `len` bytes from the front of the queue, piece by piece. */
  function Drain(queue: seq<Bytes>, len: nat): Drained
    decreases |queue|
  {
    if queue == [] || len == 0 then Drained([], queue, 0)
    else if len < |queue[0]| then Drained([queue[0][..len]], [queue[0][len..]] + queue[1..], len)
    else
      var rest := Drain(queue[1..], len - |queue[0]|);
      Drained([queue[0]] + rest.pieces, rest.queue, |queue[0]| + rest.written)
  }

  function Writes(cb: Callback, pieces: seq<Bytes>): seq<Output> {
    if pieces == [] then [] else [Wrote(cb, pieces[0])] + Writes(cb, pieces[1..])
  }

  /** What a connection holds after a read of up to `len` bytes. */
  function Rest(conn: Conn, len: nat): Conn {
    conn.(queue := Drain(conn.queue, len).queue, queuedBytes := conn.queuedBytes - Drain(conn.queue, len).written)
  }

  /** A read takes what is queued and completes. */
  function Complete(n: Node, fd: nat, r: Recv): Node
    requires fd in n.conns
  {
    n.(conns := n.conns[fd := Rest(n.conns[fd], r.len)],
       log := n.log + Writes(r.cb, Drain(n.conns[fd].queue, r.len).pieces) + [RecvDone(r.cb, true)])
  }

  /** A connection with one more piece queued and nobody waiting. */
  function Filled(conn: Conn, bytes: Bytes): Conn {
    conn.(queue := conn.queue + [bytes], queuedBytes := conn.queuedBytes + |bytes|, wake := None)
  }

  function HandleData(n: Node, remote: NodeId, bytes: Bytes): Node {
    if remote !in n.byRemote || n.byRemote[remote] !in n.conns || bytes == [] then n
    else
      var fd := n.byRemote[remote];
      var conn := n.conns[fd];
      var m := n.(conns := n.conns[fd := Filled(conn, bytes)]);
      if conn.wake.None? then m
      else if conn.closed then m.(log := m.log + [RecvDone(conn.wake.value.cb, false)])
      else Complete(m, fd, conn.wake.value)
  }

  function HandleAccepted(n: Node, remote: NodeId): Node {
    if remote !in n.byRemote || n.byRemote[remote] !in n.conns then n
    else
      var fd := n.byRemote[remote];
      var conn := n.conns[fd];
      n.(conns := n.conns[fd := conn.(accepted := None)],
         log := n.log + if conn.accepted.Some? then [ConnectDone(conn.accepted.value, fd)] else [])
  }

  function HandleFrame(n: Node, fdMax: nat, remote: NodeId, frame: Frame): Node {
    match frame
    case Connect => HandleConnect(n, fdMax, remote)
    case Accepted => HandleAccepted(n, remote)
    case Data(bytes) => HandleData(n, remote, bytes)
    case Close => Supersede(n, remote)
    case Unknown => n
  }

  // ----- the Runtime's calls -----

  function DoConnect(n: Node, fdMax: nat, remote: NodeId, cb: Callback): Node {
    match NewFd(n, fdMax)
    case Full(next) => n.(nextFd := next, log := n.log + [ConnectDone(cb, -1)])
    case Found(fd, next) =>
      var m := CreateConn(n.(nextFd := next), fd, remote);
      m.(conns := m.conns[fd := m.conns[fd].(accepted := Some(cb))], log := m.log + [Posted(remote, Connect)])
  }

  function DoAccept(n: Node, cb: Callback): Node
    decreases |n.readyFds|
  {
    if n.readyFds == [] then n.(acceptWaiters := n.acceptWaiters + [cb])
    else
      var fd := n.readyFds[0];
      var m := n.(readyFds := n.readyFds[1..]);
      if Settles(m, fd) then SettleAccept(m, fd, cb) else DoAccept(m, cb)
  }

  function Taken(data: Bytes): nat { if SEND_CHUNK_BYTES < |data| then SEND_CHUNK_BYTES else |data| }

  /** Sending; `postOk` is false when the bus refuses the frame. */
  function DoSend(n: Node, fd: nat, data: Bytes, postOk: bool): Node {
    if !Settles(n, fd) || data == [] || !postOk then n
    else n.(log := n.log + [Posted(n.conns[fd].remote, Data(data[..Taken(data)]))])
  }

  function SendResult(n: Node, fd: nat, data: Bytes, postOk: bool): int {
    if !Settles(n, fd) then -1 else if data == [] then 0 else if postOk then Taken(data) else -1
  }

  function DoRecv(n: Node, fd: nat, r: Recv): Node {
    if !Settles(n, fd) then n.(log := n.log + [RecvDone(r.cb, false)])
    else if Drain(n.conns[fd].queue, r.len).written > 0 then Complete(n, fd, r)
    else n.(conns := n.conns[fd := n.conns[fd].(wake := Some(r))])
  }

  function DoCloseConnection(n: Node, fd: nat): Node {
    if fd !in n.conns then n
    else
      var conn := n.conns[fd];
      var m := if conn.closed then n else Tombstone(n.(log := n.log + [Posted(conn.remote, Close)]), fd);
      m.(conns := m.conns - {fd}, closes := Bump(m.closes, fd))
  }

  function TombstoneAll(n: Node, order: seq<nat>): Node
    requires forall fd :: fd in order ==> fd in n.conns
    decreases |order|
  {
    if order == [] then n else TombstoneAll(Tombstone(n, order[0]), order[1..])
  }

  /** Closing the manager; `order` is the order in which its connections were inserted. */
  function DoClose(n: Node, order: seq<nat>): Node
    requires forall fd :: fd in order ==> fd in n.conns
  {
    TombstoneAll(n, order).(byRemote := map[], readyFds := [])
  }

  // ----- one operation -----

  datatype Op =
    | OpConnect(remote: NodeId, cb: Callback)
    | OpAccept(cb: Callback)
    | OpSend(fd: nat, data: Bytes, postOk: bool)
    | OpRecv(fd: nat, r: Recv)
    | OpCloseConnection(fd: nat)
    | OpClose(order: seq<nat>)
    | OpFrame(from: NodeId, frame: Frame)

  /** `order` enumerates the connections, and nobody asks for zero bytes. */
  ghost predicate Allowed(n: Node, op: Op) {
    match op
    case OpRecv(_, r) => r.len > 0
    case OpClose(order) => Distinct(order) && ToSet(order) == n.conns.Keys
    case _ => true
  }

  function Step(n: Node, fdMax: nat, op: Op): Node
    requires op.OpClose? ==> forall fd :: fd in op.order ==> fd in n.conns
  {
    var m := n.(log := []);
    match op
    case OpConnect(remote, cb) => DoConnect(m, fdMax, remote, cb)
    case OpAccept(cb) => DoAccept(m, cb)
    case OpSend(fd, data, postOk) => DoSend(m, fd, data, postOk)
    case OpRecv(fd, r) => DoRecv(m, fd, r)
    case OpCloseConnection(fd) => DoCloseConnection(m, fd)
    case OpClose(order) => DoClose(m, order)
    case OpFrame(from, frame) => HandleFrame(m, fdMax, from, frame)
  }
}
