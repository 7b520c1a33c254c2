/** What every reachable PeerManager state satisfies, and what follows for fd numbers. */
module PeerInvariant {
  import opened Arith
  import opened Option
  import opened PeerModel

  function Flat(queue: seq<Bytes>): Bytes { if queue == [] then [] else queue[0] + Flat(queue[1..]) }

  ghost predicate QueueOk(conn: Conn) {
    && conn.queuedBytes == |Flat(conn.queue)|
    && (forall i :: 0 <= i < |conn.queue| ==> conn.queue[i] != [])
    && (conn.wake.Some? ==> conn.queue == [] && conn.wake.value.len > 0)
    && (conn.closed ==> conn.queue == [] && conn.wake.None? && conn.accepted.None?)
  }

  ghost predicate Live(n: Node, fd: nat) { fd in n.conns && !n.conns[fd].closed }

  /** One live connection per remote, found by that remote's name. */
  ghost predicate Bijection(n: Node) {
    && (forall remote :: remote in n.byRemote ==> Live(n, n.byRemote[remote]) && n.conns[n.byRemote[remote]].remote == remote)
    && (forall fd :: Live(n, fd) ==> n.conns[fd].remote in n.byRemote && n.byRemote[n.conns[fd].remote] == fd)
  }

  ghost predicate ReadyOk(n: Node) {
    && Distinct(n.readyFds)
    && (forall i :: 0 <= i < |n.readyFds| ==> Live(n, n.readyFds[i]))
    && (n.readyFds == [] || n.acceptWaiters == [])
  }

  ghost predicate NumbersOk(n: Node, fdMax: nat) {
    && n.nextFd <= fdMax
    && (forall fd :: fd in n.conns ==> fd < fdMax)
    && (forall fd: nat :: Count(n.opens, fd) == Count(n.closes, fd) + if fd in n.conns then 1 else 0)
  }

  ghost predicate Inv(n: Node, fdMax: nat) {
    Bijection(n) && ReadyOk(n) && NumbersOk(n, fdMax) && QueuesOk(n)
  }

  lemma {:induction false} WithoutKeeps(fds: seq<nat>, fd: nat)
    requires Distinct(fds)
    ensures Distinct(Without(fds, fd))
    ensures forall x :: x in Without(fds, fd) <==> x in fds && x != fd
  {
    if fds != [] {
      assert Distinct(fds[1..]);
      WithoutKeeps(fds[1..], fd);
      if fds[0] != fd {
        var rest := Without(fds[1..], fd);
        assert fds[0] !in rest;
      }
    }
  }

  ghost predicate QueuesOk(n: Node) { forall fd :: fd in n.conns ==> QueueOk(n.conns[fd]) }

  lemma DeadOk(conn: Conn)
    ensures QueueOk(Dead(conn))
  {
  }

  lemma TombstoneBijection(n: Node, fd: nat)
    requires Bijection(n) && Live(n, fd)
    ensures Bijection(Tombstone(n, fd))
  {
  }

  lemma TombstoneReady(n: Node, fd: nat)
    requires ReadyOk(n) && Live(n, fd)
    ensures ReadyOk(Tombstone(n, fd))
  {
    WithoutKeeps(n.readyFds, fd);
    hide Without;
    var m := Tombstone(n, fd);
    forall i | 0 <= i < |m.readyFds|
      ensures Live(m, m.readyFds[i])
    {
      assert m.readyFds[i] in n.readyFds;
    }
  }

  /** Everything but the tombstoned connection's place in the lists stays. */
  lemma TombstoneKeeps(n: Node, fdMax: nat, fd: nat)
    requires Inv(n, fdMax) && fd in n.conns
    ensures Inv(Tombstone(n, fd), fdMax)
    ensures Tombstone(n, fd).conns.Keys == n.conns.Keys
    ensures forall x :: x in n.conns && x != fd ==> Tombstone(n, fd).conns[x] == n.conns[x]
    ensures !Live(Tombstone(n, fd), fd)
  {
    hide Bijection, ReadyOk, Without, Unlinked, Flat;
    if Live(n, fd) {
      TombstoneBijection(n, fd);
      TombstoneReady(n, fd);
      DeadOk(n.conns[fd]);
    }
  }

  lemma SupersedeKeeps(n: Node, fdMax: nat, remote: NodeId)
    requires Inv(n, fdMax)
    ensures Inv(Supersede(n, remote), fdMax) && remote !in Supersede(n, remote).byRemote
    ensures Supersede(n, remote).conns.Keys == n.conns.Keys
  {
    if remote in n.byRemote {
      TombstoneKeeps(n, fdMax, n.byRemote[remote]);
    }
  }

  /** A new connection to a remote that has no live one. */
  function Introduced(n: Node, fd: nat, remote: NodeId): Node {
    n.(conns := n.conns[fd := Conn(remote, false, [], 0, None, None)],
       byRemote := n.byRemote[remote := fd], opens := Bump(n.opens, fd))
  }

  lemma IntroducedLive(n: Node, fd: nat, remote: NodeId)
    requires fd !in n.conns
    ensures forall x :: Live(Introduced(n, fd, remote), x) <==> Live(n, x) || x == fd
  {
  }

  lemma IntroducedBijection(n: Node, fd: nat, remote: NodeId)
    requires Bijection(n) && fd !in n.conns && remote !in n.byRemote
    ensures Bijection(Introduced(n, fd, remote))
  {
    IntroducedLive(n, fd, remote);
  }

  lemma IntroducedReady(n: Node, fd: nat, remote: NodeId)
    requires ReadyOk(n) && fd !in n.conns
    ensures ReadyOk(Introduced(n, fd, remote)) && fd !in n.readyFds
  {
    hide Live;
    IntroducedLive(n, fd, remote);
    assert !Live(n, fd) by { NotReserved(n, fd); }
  }

  lemma NotReserved(n: Node, fd: nat)
    requires fd !in n.conns
    ensures !Live(n, fd)
  {
  }

  lemma IntroducedNumbers(n: Node, fdMax: nat, fd: nat, remote: NodeId)
    requires NumbersOk(n, fdMax) && fd !in n.conns && fd < fdMax
    ensures NumbersOk(Introduced(n, fd, remote), fdMax)
  {
  }

  /** Opening a reserved number for a remote that has no live connection. */
  lemma OpenKeeps(n: Node, fdMax: nat, fd: nat, remote: NodeId)
    requires Inv(n, fdMax) && fd !in n.conns && fd < fdMax && remote !in n.byRemote
    ensures var m := Introduced(n, fd, remote);
            Inv(m, fdMax) && Live(m, fd) && fd !in m.readyFds
  {
    hide Bijection, ReadyOk, NumbersOk;
    IntroducedBijection(n, fd, remote);
    IntroducedReady(n, fd, remote);
    IntroducedNumbers(n, fdMax, fd, remote);
  }

  lemma CreateConnKeeps(n: Node, fdMax: nat, fd: nat, remote: NodeId)
    requires Inv(n, fdMax) && fd !in n.conns && fd < fdMax
    ensures Inv(CreateConn(n, fd, remote), fdMax)
    ensures Live(CreateConn(n, fd, remote), fd) && fd !in CreateConn(n, fd, remote).readyFds
    ensures CreateConn(n, fd, remote).acceptWaiters == n.acceptWaiters
  {
    hide Inv, Live;
    SupersedeKeeps(n, fdMax, remote);
    OpenKeeps(Supersede(n, remote), fdMax, fd, remote);
  }

  lemma NextKeeps(n: Node, fdMax: nat, next: nat)
    requires Inv(n, fdMax) && next <= fdMax
    ensures Inv(n.(nextFd := next), fdMax)
  {
  }

  /** The connection just opened is handed to the first waiter, or queued behind the ready ones. */
  lemma HandOverKeeps(n: Node, fdMax: nat, fd: nat)
    requires Inv(n, fdMax) && Live(n, fd) && fd !in n.readyFds
    ensures n.acceptWaiters == [] ==> Inv(n.(readyFds := n.readyFds + [fd]), fdMax)
    ensures n.acceptWaiters != [] ==>
              Inv(SettleAccept(n.(acceptWaiters := n.acceptWaiters[1..]), fd, n.acceptWaiters[0]), fdMax)
  {
    hide QueueOk;
    var m := n.(readyFds := n.readyFds + [fd]);
    forall x
      ensures Live(m, x) <==> Live(n, x)
    {
    }
    if n.acceptWaiters != [] {
      var k := SettleAccept(n.(acceptWaiters := n.acceptWaiters[1..]), fd, n.acceptWaiters[0]);
      forall x
        ensures Live(k, x) <==> Live(n, x)
      {
      }
    }
  }

  lemma NewFdBounds(n: Node, fdMax: nat)
    requires Inv(n, fdMax)
    ensures NewFd(n, fdMax).next <= fdMax
    ensures NewFd(n, fdMax).Found? ==> NewFd(n, fdMax).fd !in n.conns && NewFd(n, fdMax).fd < fdMax
  {
    NewFdIsFirstFree(n, fdMax);
  }

  lemma HandleConnectKeeps(n: Node, fdMax: nat, remote: NodeId)
    requires Inv(n, fdMax)
    ensures Inv(HandleConnect(n, fdMax, remote), fdMax)
  {
    hide Inv, CreateConn, SettleAccept, ScanFds;
    NewFdBounds(n, fdMax);
    match NewFd(n, fdMax)
    case Full(next) => NextKeeps(n, fdMax, next);
    case Found(fd, next) =>
      NextKeeps(n, fdMax, next);
      CreateConnKeeps(n.(nextFd := next), fdMax, fd, remote);
      HandOverKeeps(CreateConn(n.(nextFd := next), fd, remote), fdMax, fd);
  }

  lemma {:induction false} DrainFacts(queue: seq<Bytes>, len: nat)
    requires forall i :: 0 <= i < |queue| ==> queue[i] != []
    ensures var d := Drain(queue, len);
            && Flat(d.pieces) + Flat(d.queue) == Flat(queue)
            && d.written == |Flat(d.pieces)| && d.written == (if len < |Flat(queue)| then len else |Flat(queue)|)
            && (forall i :: 0 <= i < |d.queue| ==> d.queue[i] != [])
            && (d.written < len ==> d.queue == [])
  {
    if queue != [] && len > 0 {
      if len < |queue[0]| {
        DrainPart(queue, len);
      } else {
        DrainFacts(queue[1..], len - |queue[0]|);
        DrainHead(queue, len);
      }
    }
  }

  /** A read that ends inside the first piece. */
  lemma DrainPart(queue: seq<Bytes>, len: nat)
    requires queue != [] && 0 < len < |queue[0]|
    ensures var d := Drain(queue, len);
            Flat(d.pieces) + Flat(d.queue) == Flat(queue) && |Flat(d.pieces)| == len == d.written && d.queue != []
  {
  }

  /** A read that takes the first piece goes on with the rest. */
  lemma DrainHead(queue: seq<Bytes>, len: nat)
    requires queue != [] && 0 < len && |queue[0]| <= len
    ensures var d, rest := Drain(queue, len), Drain(queue[1..], len - |queue[0]|);
            && Flat(d.pieces) == queue[0] + Flat(rest.pieces) && d.queue == rest.queue
            && d.written == |queue[0]| + rest.written
  {
  }

  /** A read that asks for something takes something, if there is anything. */
  lemma DrainTakes(conn: Conn, len: nat)
    requires QueueOk(conn) && len > 0
    ensures Drain(conn.queue, len).written > 0 <==> conn.queue != []
  {
  }

  lemma {:induction false} FlatAppend(queue: seq<Bytes>, bytes: Bytes)
    ensures Flat(queue + [bytes]) == Flat(queue) + bytes
  {
    if queue == [] {
      assert Flat([bytes]) == bytes + Flat([]);
    } else {
      assert (queue + [bytes])[1..] == queue[1..] + [bytes];
      FlatAppend(queue[1..], bytes);
    }
  }

  /** Changing what a live connection holds disturbs nothing else. */
  lemma SetConnKeeps(n: Node, fdMax: nat, fd: nat, conn: Conn, log: seq<Output>)
    requires Inv(n, fdMax) && Live(n, fd) && conn.remote == n.conns[fd].remote && !conn.closed && QueueOk(conn)
    ensures Inv(n.(conns := n.conns[fd := conn], log := log), fdMax)
  {
    hide QueueOk;
    var m := n.(conns := n.conns[fd := conn], log := log);
    forall x
      ensures Live(m, x) <==> Live(n, x)
    {
    }
  }

  lemma RestOk(conn: Conn, len: nat)
    requires QueueOk(conn) && conn.wake.None?
    ensures QueueOk(Rest(conn, len))
  {
    DrainFacts(conn.queue, len);
    assert |Flat(conn.queue)| == |Flat(Drain(conn.queue, len).pieces)| + |Flat(Rest(conn, len).queue)|;
  }

  lemma CompleteKeeps(n: Node, fdMax: nat, fd: nat, r: Recv)
    requires Inv(n, fdMax) && Live(n, fd) && n.conns[fd].wake.None?
    ensures Inv(Complete(n, fd, r), fdMax)
  {
    hide Bijection, ReadyOk, NumbersOk, QueueOk, Drain, Writes;
    RestOk(n.conns[fd], r.len);
    SetConnKeeps(n, fdMax, fd, Rest(n.conns[fd], r.len), Complete(n, fd, r).log);
  }

  lemma FilledOk(conn: Conn, bytes: Bytes)
    requires QueueOk(conn) && bytes != [] && !conn.closed
    ensures QueueOk(Filled(conn, bytes)) && !Filled(conn, bytes).closed && Filled(conn, bytes).wake.None?
    ensures Filled(conn, bytes).remote == conn.remote
  {
    FlatAppend(conn.queue, bytes);
  }

  lemma HandleDataKeeps(n: Node, fdMax: nat, remote: NodeId, bytes: Bytes)
    requires Inv(n, fdMax)
    ensures Inv(HandleData(n, remote, bytes), fdMax)
  {
    hide ReadyOk, NumbersOk, QueueOk, Complete, Filled;
    if remote in n.byRemote && bytes != [] {
      var fd := n.byRemote[remote];
      assert Live(n, fd) && QueueOk(n.conns[fd]);
      var conn := n.conns[fd];
      FilledOk(conn, bytes);
      SetConnKeeps(n, fdMax, fd, Filled(conn, bytes), n.log);
      var m := n.(conns := n.conns[fd := Filled(conn, bytes)], log := n.log);
      assert m == n.(conns := n.conns[fd := Filled(conn, bytes)]);
      if conn.wake.Some? {
        CompleteKeeps(m, fdMax, fd, conn.wake.value);
      }
    }
  }

  lemma HandleAcceptedKeeps(n: Node, fdMax: nat, remote: NodeId)
    requires Inv(n, fdMax)
    ensures Inv(HandleAccepted(n, remote), fdMax)
  {
    if remote in n.byRemote {
      var fd := n.byRemote[remote];
      assert Live(n, fd);
      SetConnKeeps(n, fdMax, fd, n.conns[fd].(accepted := None), HandleAccepted(n, remote).log);
    }
  }

  lemma DoRecvKeeps(n: Node, fdMax: nat, fd: nat, r: Recv)
    requires Inv(n, fdMax) && r.len > 0
    ensures Inv(DoRecv(n, fd, r), fdMax)
  {
    hide Bijection, ReadyOk, NumbersOk, Drain, Complete;
    if Live(n, fd) {
      var conn := n.conns[fd];
      assert QueueOk(conn);
      DrainTakes(conn, r.len);
      if conn.queue != [] {
        CompleteKeeps(n, fdMax, fd, r);
      } else {
        ParkOk(conn, r);
        SetConnKeeps(n, fdMax, fd, conn.(wake := Some(r)), n.log);
      }
    } else {
      LogKeeps(n, fdMax, n.log + [RecvDone(r.cb, false)]);
    }
  }

  lemma ParkOk(conn: Conn, r: Recv)
    requires QueueOk(conn) && conn.queue == [] && r.len > 0 && !conn.closed
    ensures QueueOk(conn.(wake := Some(r)))
  {
  }

  lemma DoConnectKeeps(n: Node, fdMax: nat, remote: NodeId, cb: Callback)
    requires Inv(n, fdMax)
    ensures Inv(DoConnect(n, fdMax, remote, cb), fdMax)
  {
    hide Inv, QueueOk, CreateConn, ScanFds;
    NewFdBounds(n, fdMax);
    NextKeeps(n, fdMax, NewFd(n, fdMax).next);
    LogKeeps(n.(nextFd := NewFd(n, fdMax).next), fdMax, n.log + [ConnectDone(cb, -1)]);
    if NewFd(n, fdMax).Found? {
      var fd, m := NewFd(n, fdMax).fd, n.(nextFd := NewFd(n, fdMax).next);
      CreateConnKeeps(m, fdMax, fd, remote);
      var k := CreateConn(m, fd, remote);
      AwaitOk(k, fdMax, fd, cb);
      SetConnKeeps(k, fdMax, fd, k.conns[fd].(accepted := Some(cb)), k.log + [Posted(remote, Connect)]);
    }
  }

  lemma AwaitOk(n: Node, fdMax: nat, fd: nat, cb: Callback)
    requires Inv(n, fdMax) && Live(n, fd)
    ensures QueueOk(n.conns[fd].(accepted := Some(cb)))
  {
  }

  lemma {:induction false} DoAcceptKeeps(n: Node, fdMax: nat, cb: Callback)
    requires Inv(n, fdMax)
    ensures Inv(DoAccept(n, cb), fdMax)
  {
    if n.readyFds != [] {
      assert Live(n, n.readyFds[0]);
    }
  }

  /** Releasing a tombstone frees its number and counts one close. */
  lemma ReleaseKeeps(n: Node, fdMax: nat, fd: nat)
    requires Inv(n, fdMax) && fd in n.conns && !Live(n, fd)
    ensures Inv(n.(conns := n.conns - {fd}, closes := Bump(n.closes, fd)), fdMax)
  {
    hide QueueOk;
    var m := n.(conns := n.conns - {fd}, closes := Bump(n.closes, fd));
    forall x
      ensures Live(m, x) <==> Live(n, x)
    {
    }
  }

  lemma DoCloseConnectionKeeps(n: Node, fdMax: nat, fd: nat)
    requires Inv(n, fdMax)
    ensures Inv(DoCloseConnection(n, fd), fdMax)
  {
    hide Inv, Tombstone;
    if fd in n.conns {
      var posted := n.(log := n.log + [Posted(n.conns[fd].remote, Close)]);
      LogKeeps(n, fdMax, posted.log);
      if n.conns[fd].closed {
        ReleaseKeeps(n, fdMax, fd);
      } else {
        TombstoneKeeps(posted, fdMax, fd);
        ReleaseKeeps(Tombstone(posted, fd), fdMax, fd);
      }
    }
  }

  lemma LogKeeps(n: Node, fdMax: nat, log: seq<Output>)
    requires Inv(n, fdMax)
    ensures Inv(n.(log := log), fdMax)
  {
  }

  lemma {:induction false} TombstoneAllKeeps(n: Node, fdMax: nat, order: seq<nat>)
    requires Inv(n, fdMax) && forall fd :: fd in order ==> fd in n.conns
    ensures Inv(TombstoneAll(n, order), fdMax)
    ensures TombstoneAll(n, order).conns.Keys == n.conns.Keys
    ensures forall fd :: fd in n.conns && (fd in order || n.conns[fd].closed) ==> TombstoneAll(n, order).conns[fd].closed
    decreases |order|
  {
    if order != [] {
      TombstoneKeeps(n, fdMax, order[0]);
      TombstoneAllKeeps(Tombstone(n, order[0]), fdMax, order[1..]);
    }
  }

  lemma DoCloseKeeps(n: Node, fdMax: nat, order: seq<nat>)
    requires Inv(n, fdMax) && ToSet(order) == n.conns.Keys
    ensures forall fd :: fd in order ==> fd in n.conns
    ensures Inv(DoClose(n, order), fdMax)
    ensures DoClose(n, order) == TombstoneAll(n, order)
  {
    forall fd | fd in order
      ensures fd in n.conns
    {
      assert fd in ToSet(order);
    }
    TombstoneAllKeeps(n, fdMax, order);
    var m := TombstoneAll(n, order);
    forall fd | fd in m.conns
      ensures m.conns[fd].closed
    {
      assert fd in ToSet(order);
    }
    assert m.byRemote.Keys == {};
    assert m.byRemote == map[];
    assert forall i :: 0 <= i < |m.readyFds| ==> Live(m, m.readyFds[i]);
    assert m.readyFds != [] ==> Live(m, m.readyFds[0]);
    assert m.(byRemote := map[], readyFds := []) == m;
  }

  /** Every operation keeps the invariant. */
  lemma StepKeeps(n: Node, fdMax: nat, op: Op)
    requires Inv(n, fdMax) && Allowed(n, op)
    ensures op.OpClose? ==> forall fd :: fd in op.order ==> fd in n.conns
    ensures Inv(Step(n, fdMax, op), fdMax)
  {
    hide Bijection, ReadyOk, NumbersOk, QueueOk, QueuesOk, Inv, DoConnect, DoAccept, DoRecv, DoCloseConnection, HandleConnect, HandleData, HandleAccepted, Supersede, DoClose;
    var m := n.(log := []);
    LogKeeps(n, fdMax, []);
    match op
    case OpConnect(remote, cb) => DoConnectKeeps(m, fdMax, remote, cb);
    case OpAccept(cb) => DoAcceptKeeps(m, fdMax, cb);
    case OpSend(fd, data, postOk) => LogKeeps(m, fdMax, DoSend(m, fd, data, postOk).log);
    case OpRecv(fd, r) => DoRecvKeeps(m, fdMax, fd, r);
    case OpCloseConnection(fd) => DoCloseConnectionKeeps(m, fdMax, fd);
    case OpClose(order) => DoCloseKeeps(m, fdMax, order);
    case OpFrame(from, frame) =>
      match frame {
        case Connect => HandleConnectKeeps(m, fdMax, from);
        case Accepted => HandleAcceptedKeeps(m, fdMax, from);
        case Data(bytes) => HandleDataKeeps(m, fdMax, from, bytes);
        case Close => SupersedeKeeps(m, fdMax, from);
        case Unknown =>
      }
  }

  // ----- runs -----

  ghost predicate RunAllowed(n: Node, fdMax: nat, ops: seq<Op>)
    requires Inv(n, fdMax)
    decreases |ops|
  {
    ops == [] ||
    (Allowed(n, ops[0]) && (StepKeeps(n, fdMax, ops[0]); RunAllowed(Step(n, fdMax, ops[0]), fdMax, ops[1..])))
  }

  ghost function After(n: Node, fdMax: nat, ops: seq<Op>): Node
    requires Inv(n, fdMax) && RunAllowed(n, fdMax, ops)
    decreases |ops|
  {
    if ops == [] then n
    else
      StepKeeps(n, fdMax, ops[0]);
      After(Step(n, fdMax, ops[0]), fdMax, ops[1..])
  }

  lemma InitInv(fdMax: nat)
    ensures Inv(Init(), fdMax)
  {
  }

  lemma {:induction false} RunKeeps(n: Node, fdMax: nat, ops: seq<Op>)
    requires Inv(n, fdMax) && RunAllowed(n, fdMax, ops)
    ensures Inv(After(n, fdMax, ops), fdMax)
    decreases |ops|
  {
    if ops != [] {
      StepKeeps(n, fdMax, ops[0]);
      RunKeeps(Step(n, fdMax, ops[0]), fdMax, ops[1..]);
    }
  }

  /**
    For every run: a number's opens exceed its closes by one while it is reserved and by nothing
    otherwise, and the next number handed out is one that is not reserved, if there is one.
   */
  lemma FdLedger(fdMax: nat, ops: seq<Op>)
    requires Inv(Init(), fdMax) && RunAllowed(Init(), fdMax, ops)
    ensures var n := After(Init(), fdMax, ops);
            && (forall fd: nat :: Count(n.opens, fd) - Count(n.closes, fd) == if fd in n.conns then 1 else 0)
            && (forall fd :: fd in n.conns ==> fd < fdMax)
            && (match NewFd(n, fdMax)
                case Found(fd, _) => FirstFree(n.conns.Keys, fdMax, n.nextFd, fd) && Count(n.opens, fd) == Count(n.closes, fd)
                case Full(_) => forall fd: nat :: fd < fdMax ==> fd in n.conns)
  {
    RunKeeps(Init(), fdMax, ops);
    NewFdIsFirstFree(After(Init(), fdMax, ops), fdMax);
  }

  /** The operations that open a connection. */
  predicate Opening(op: Op) { op.OpConnect? || (op.OpFrame? && op.frame.Connect?) }

  lemma TombstoneFrame(n: Node, fd: nat)
    requires fd in n.conns
    ensures Tombstone(n, fd).opens == n.opens && Tombstone(n, fd).conns.Keys == n.conns.Keys
  {
  }

  lemma SupersedeFrame(n: Node, remote: NodeId)
    ensures Supersede(n, remote).opens == n.opens && Supersede(n, remote).conns.Keys == n.conns.Keys
  {
  }

  lemma CreateConnOpens(n: Node, fd: nat, remote: NodeId)
    ensures CreateConn(n, fd, remote).opens == Bump(n.opens, fd) && fd in CreateConn(n, fd, remote).conns
  {
  }

  /** Handing a new connection over changes no connection. */
  lemma ArrivalOpens(n: Node, fdMax: nat, remote: NodeId)
    ensures var m := HandleConnect(n, fdMax, remote);
            match NewFd(n, fdMax)
            case Full(next) => m.opens == n.opens && m.conns == n.conns
            case Found(fd, next) =>
              var c := CreateConn(n.(nextFd := next), fd, remote);
              m.opens == c.opens && m.conns == c.conns
  {
  }

  lemma CloseConnectionOpens(n: Node, fd: nat)
    ensures DoCloseConnection(n, fd).opens == n.opens
  {
  }

  lemma StepOpens(n: Node, fdMax: nat, op: Op)
    requires op.OpClose? ==> forall x :: x in op.order ==> x in n.conns
    ensures var m := Step(n, fdMax, op);
            if Opening(op) && NewFd(n, fdMax).Found?
            then m.opens == Bump(n.opens, NewFd(n, fdMax).fd) && NewFd(n, fdMax).fd in m.conns
            else m.opens == n.opens
  {
    hide CreateConn, HandleConnect, Supersede, DoCloseConnection, DoAccept, TombstoneAll, Drain, Writes, ScanFds, Bump;
    var m := n.(log := []);
    var scan := NewFd(m, fdMax);
    match op
    case OpConnect(remote, _) => if scan.Found? {
        CreateConnOpens(m.(nextFd := scan.next), scan.fd, remote);
      }
    case OpAccept(cb) => DoAcceptOpens(m, cb);
    case OpClose(order) => TombstoneAllOpens(m, order);
    case OpCloseConnection(fd) => CloseConnectionOpens(m, fd);
    case OpFrame(remote, Connect) =>
      ArrivalOpens(m, fdMax, remote);
      if scan.Found? {
        CreateConnOpens(m.(nextFd := scan.next), scan.fd, remote);
      }
    case OpFrame(remote, Close) => SupersedeFrame(m, remote);
    case _ =>
  }

  /** An operation opens a number only while the Runtime does not hold it, and then exactly once. */
  lemma OpensOnlyFreeNumbers(n: Node, fdMax: nat, op: Op, fd: nat)
    requires Inv(n, fdMax) && Allowed(n, op)
    requires op.OpClose? ==> forall x :: x in op.order ==> x in n.conns
    requires Count(Step(n, fdMax, op).opens, fd) != Count(n.opens, fd)
    ensures fd !in n.conns && Count(Step(n, fdMax, op).opens, fd) == Count(n.opens, fd) + 1
    ensures fd in Step(n, fdMax, op).conns
  {
    NewFdIsFirstFree(n, fdMax);
    StepOpens(n, fdMax, op);
    hide Step, NewFd;
  }

  lemma {:induction false} TombstoneAllOpens(n: Node, order: seq<nat>)
    requires forall fd :: fd in order ==> fd in n.conns
    ensures TombstoneAll(n, order).opens == n.opens && TombstoneAll(n, order).acceptWaiters == n.acceptWaiters
    decreases |order|
  {
    if order != [] {
      TombstoneAllOpens(Tombstone(n, order[0]), order[1..]);
    }
  }

  lemma {:induction false} DoAcceptOpens(n: Node, cb: Callback)
    ensures DoAccept(n, cb).opens == n.opens && DoAccept(n, cb).conns == n.conns
    decreases |n.readyFds|
  {
    if n.readyFds != [] {
      DoAcceptOpens(n.(readyFds := n.readyFds[1..]), cb);
    }
  }

  // ----- the rendezvous never retries -----

  /** A ready connection always settles: `accept` takes the first one, or waits if there is none. */
  lemma AcceptTakesFirst(n: Node, fdMax: nat, cb: Callback)
    requires Inv(n, fdMax)
    ensures DoAccept(n, cb) ==
            if n.readyFds == [] then n.(acceptWaiters := n.acceptWaiters + [cb])
            else SettleAccept(n.(readyFds := n.readyFds[1..]), n.readyFds[0], cb)
    ensures n.readyFds != [] ==> Live(n, n.readyFds[0])
  {
  }

  /** The branch that puts a waiter back after a failed hand-over is never taken. */
  lemma HandOverNeverFails(n: Node, fdMax: nat, remote: NodeId)
    requires Inv(n, fdMax) && NewFd(n, fdMax).Found?
    ensures var fd, m := NewFd(n, fdMax).fd, CreateConn(n.(nextFd := NewFd(n, fdMax).next), NewFd(n, fdMax).fd, remote);
            && Live(m, fd) && m.acceptWaiters == n.acceptWaiters
            && HandleConnect(n, fdMax, remote) ==
               if n.acceptWaiters == [] then m.(readyFds := m.readyFds + [fd])
               else SettleAccept(m.(acceptWaiters := n.acceptWaiters[1..]), fd, n.acceptWaiters[0])
  {
  }

  // ----- connections an operation does not touch -----

  /** The connection an operation reads from or fills, if any. */
  function Touched(n: Node, op: Op): Option<nat> {
    match op
    case OpRecv(fd, _) => Some(fd)
    case OpFrame(from, Data(_)) => if from in n.byRemote then Some(n.byRemote[from]) else None
    case _ => None
  }

  /**
    Alive now means alive before or just opened: a connection just opened holds nothing, and one
    that is not touched holds what it held.
   */
  ghost predicate Stays(n: Node, m: Node, touched: Option<nat>) {
    forall fd :: Live(m, fd) ==>
      if Count(m.opens, fd) != Count(n.opens, fd) then m.conns[fd].queue == []
      else Live(n, fd) && (touched == Some(fd) || m.conns[fd].queue == n.conns[fd].queue)
  }

  lemma TombstoneStays(n: Node, fd: nat)
    requires fd in n.conns
    ensures Stays(n, Tombstone(n, fd), None)
  {
  }

  lemma CreateConnStays(n: Node, fd: nat, remote: NodeId)
    ensures Stays(n, CreateConn(n, fd, remote), None)
  {
  }

  lemma {:induction false} TombstoneAllStays(n: Node, order: seq<nat>)
    requires forall fd :: fd in order ==> fd in n.conns
    ensures Stays(n, TombstoneAll(n, order), None)
    decreases |order|
  {
    hide Tombstone;
    if order != [] {
      TombstoneStays(n, order[0]);
      TombstoneFrame(n, order[0]);
      TombstoneAllStays(Tombstone(n, order[0]), order[1..]);
      TombstoneAllOpens(Tombstone(n, order[0]), order[1..]);
    }
  }

  lemma ConnectStays(n: Node, fdMax: nat, remote: NodeId, cb: Callback)
    ensures Stays(n, DoConnect(n, fdMax, remote, cb), None)
  {
    hide CreateConn, NewFd;
    if NewFd(n, fdMax).Found? {
      var p, fd := n.(nextFd := NewFd(n, fdMax).next), NewFd(n, fdMax).fd;
      CreateConnStays(p, fd, remote);
      CreateConnOpens(p, fd, remote);
      var c, m := CreateConn(p, fd, remote), DoConnect(n, fdMax, remote, cb);
      forall x | Live(m, x)
        ensures Live(c, x) && m.conns[x].queue == c.conns[x].queue
      {
      }
    }
  }

  lemma ArrivalStays(n: Node, fdMax: nat, remote: NodeId)
    ensures Stays(n, HandleConnect(n, fdMax, remote), None)
  {
    hide CreateConn, HandleConnect, NewFd;
    ArrivalOpens(n, fdMax, remote);
    if NewFd(n, fdMax).Found? {
      CreateConnStays(n.(nextFd := NewFd(n, fdMax).next), NewFd(n, fdMax).fd, remote);
    }
  }

  lemma CloseConnectionStays(n: Node, fd: nat)
    ensures Stays(n, DoCloseConnection(n, fd), None)
  {
  }

  lemma SupersedeStays(n: Node, remote: NodeId)
    ensures Stays(n, Supersede(n, remote), None)
  {
  }

  lemma RecvStays(n: Node, fd: nat, r: Recv)
    ensures Stays(n, DoRecv(n, fd, r), Some(fd))
  {
    hide Drain, Writes;
  }

  lemma DataStays(n: Node, remote: NodeId, bytes: Bytes)
    ensures Stays(n, HandleData(n, remote, bytes), Touched(n, OpFrame(remote, Data(bytes))))
  {
    hide Drain, Writes;
  }

  lemma FrameStays(n: Node, fdMax: nat, remote: NodeId, frame: Frame)
    ensures Stays(n, HandleFrame(n, fdMax, remote, frame), Touched(n, OpFrame(remote, frame)))
  {
    hide HandleData, HandleConnect, Supersede;
    match frame
    case Connect => ArrivalStays(n, fdMax, remote);
    case Data(bytes) => DataStays(n, remote, bytes);
    case Close => SupersedeStays(n, remote);
    case _ =>
  }

  lemma StepStays(n: Node, fdMax: nat, op: Op)
    requires op.OpClose? ==> forall x :: x in op.order ==> x in n.conns
    ensures Stays(n, Step(n, fdMax, op), Touched(n, op))
  {
    hide DoAccept, TombstoneAll, DoConnect, DoRecv, HandleFrame, DoCloseConnection;
    var k := n.(log := []);
    match op
    case OpAccept(cb) => DoAcceptOpens(k, cb);
    case OpClose(order) => TombstoneAllStays(k, order);
    case OpConnect(remote, cb) => ConnectStays(k, fdMax, remote, cb);
    case OpCloseConnection(fd) => CloseConnectionStays(k, fd);
    case OpRecv(fd, r) => RecvStays(k, fd, r);
    case OpFrame(remote, frame) => FrameStays(k, fdMax, remote, frame);
    case _ =>
  }

  // ----- which connections an operation ends -----

  /** A connection that an operation ends: replaced, closed by its remote, by the Runtime, or with everything. */
  predicate Ends(n: Node, fdMax: nat, op: Op, fd: nat)
    requires fd in n.conns
  {
    match op
    case OpConnect(remote, _) => n.conns[fd].remote == remote && NewFd(n, fdMax).Found?
    case OpFrame(from, Connect) => n.conns[fd].remote == from && NewFd(n, fdMax).Found?
    case OpFrame(from, Close) => n.conns[fd].remote == from
    case OpCloseConnection(closing) => fd == closing
    case OpClose(_) => true
    case _ => false
  }

  lemma TombstoneLive(n: Node, fd: nat, x: nat)
    requires fd in n.conns
    ensures Live(Tombstone(n, fd), x) <==> Live(n, x) && x != fd
  {
  }

  lemma SupersedeLive(n: Node, remote: NodeId, x: nat)
    requires Bijection(n)
    ensures Live(Supersede(n, remote), x) <==> Live(n, x) && n.conns[x].remote != remote
  {
    hide Tombstone;
    if remote in n.byRemote {
      TombstoneLive(n, n.byRemote[remote], x);
    }
  }

  lemma CreateConnLive(n: Node, fd: nat, remote: NodeId, x: nat)
    requires Bijection(n) && fd !in n.conns
    ensures Live(CreateConn(n, fd, remote), x) <==> x == fd || (Live(n, x) && n.conns[x].remote != remote)
  {
    hide Supersede;
    SupersedeLive(n, remote, x);
  }

  lemma ConnectLives(n: Node, fdMax: nat, remote: NodeId, cb: Callback, fd: nat)
    requires Inv(n, fdMax)
    ensures Live(DoConnect(n, fdMax, remote, cb), fd) <==>
              (Live(n, fd) && !(n.conns[fd].remote == remote && NewFd(n, fdMax).Found?))
              || (NewFd(n, fdMax).Found? && NewFd(n, fdMax).fd == fd)
  {
    hide CreateConn, NewFd;
    NewFdBounds(n, fdMax);
    if NewFd(n, fdMax).Found? {
      CreateConnLive(n.(nextFd := NewFd(n, fdMax).next), NewFd(n, fdMax).fd, remote, fd);
    }
  }

  lemma ArrivalLives(n: Node, fdMax: nat, remote: NodeId, fd: nat)
    requires Inv(n, fdMax)
    ensures Live(HandleConnect(n, fdMax, remote), fd) <==>
              (Live(n, fd) && !(n.conns[fd].remote == remote && NewFd(n, fdMax).Found?))
              || (NewFd(n, fdMax).Found? && NewFd(n, fdMax).fd == fd)
  {
    hide CreateConn, HandleConnect, NewFd;
    NewFdBounds(n, fdMax);
    ArrivalOpens(n, fdMax, remote);
    if NewFd(n, fdMax).Found? {
      CreateConnLive(n.(nextFd := NewFd(n, fdMax).next), NewFd(n, fdMax).fd, remote, fd);
    }
  }

  lemma CloseConnectionLives(n: Node, closing: nat, fd: nat)
    ensures Live(DoCloseConnection(n, closing), fd) <==> Live(n, fd) && fd != closing
  {
    hide Tombstone;
    if closing in n.conns {
      TombstoneLive(n.(log := n.log + [Posted(n.conns[closing].remote, Close)]), closing, fd);
    }
  }

  lemma CloseLives(n: Node, fdMax: nat, order: seq<nat>, fd: nat)
    requires Inv(n, fdMax) && ToSet(order) == n.conns.Keys && forall x :: x in order ==> x in n.conns
    ensures !Live(DoClose(n, order), fd)
  {
    hide Inv;
    TombstoneAllKeeps(n, fdMax, order);
    assert fd in n.conns ==> fd in ToSet(order);
  }

  lemma DataLives(n: Node, from: NodeId, bytes: Bytes, fd: nat)
    ensures Live(HandleData(n, from, bytes), fd) <==> Live(n, fd)
  {
    hide Drain, Writes;
  }

  lemma AcceptedLives(n: Node, from: NodeId, fd: nat)
    ensures Live(HandleAccepted(n, from), fd) <==> Live(n, fd)
  {
  }

  lemma ClosedLives(n: Node, fdMax: nat, from: NodeId, fd: nat)
    requires Inv(n, fdMax)
    ensures Live(Supersede(n, from), fd) <==> Live(n, fd) && n.conns[fd].remote != from
  {
    hide Supersede;
    SupersedeLive(n, from, fd);
  }

  lemma FrameLives(n: Node, fdMax: nat, from: NodeId, frame: Frame, fd: nat)
    requires Inv(n, fdMax)
    ensures Live(HandleFrame(n, fdMax, from, frame), fd) <==>
              (Live(n, fd) && !Ends(n, fdMax, OpFrame(from, frame), fd))
              || (frame.Connect? && NewFd(n, fdMax).Found? && NewFd(n, fdMax).fd == fd)
  {
    hide Inv, HandleConnect, HandleData, HandleAccepted, Supersede, NewFd;
    match frame
    case Connect => ArrivalLives(n, fdMax, from, fd);
    case Data(bytes) => DataLives(n, from, bytes, fd);
    case Accepted => AcceptedLives(n, from, fd);
    case Close => ClosedLives(n, fdMax, from, fd);
    case Unknown =>
  }

  /** Alive after an operation is exactly what was alive and is not ended by it, and what it opens. */
  lemma LivesExactly(n: Node, fdMax: nat, op: Op, fd: nat)
    requires Inv(n, fdMax) && Allowed(n, op)
    ensures op.OpClose? ==> forall x :: x in op.order ==> x in n.conns
    ensures Live(Step(n, fdMax, op), fd) <==>
              (Live(n, fd) && !Ends(n, fdMax, op, fd)) || (Opening(op) && NewFd(n, fdMax).Found? && NewFd(n, fdMax).fd == fd)
  {
    hide Inv, Allowed, NewFd, DoConnect, DoAccept, HandleFrame, DoCloseConnection, DoClose, Drain, Writes;
    StepKeeps(n, fdMax, op);
    LogKeeps(n, fdMax, []);
    SameScan(n, fdMax);
    var k := n.(log := []);
    match op
    case OpConnect(remote, cb) => ConnectLives(k, fdMax, remote, cb, fd);
    case OpAccept(cb) => DoAcceptOpens(k, cb);
    case OpCloseConnection(closing) => CloseConnectionLives(k, closing, fd);
    case OpClose(order) =>
      OrderIsAll(n, op);
      CloseLives(k, fdMax, order, fd);
    case OpFrame(from, frame) => FrameLives(k, fdMax, from, frame, fd);
    case _ =>
  }

  lemma OrderIsAll(n: Node, op: Op)
    requires op.OpClose? && Allowed(n, op)
    ensures ToSet(op.order) == n.conns.Keys
  {
  }

  lemma SameScan(n: Node, fdMax: nat)
    ensures NewFd(n.(log := []), fdMax) == NewFd(n, fdMax)
  {
  }
}
