/**
  The harness PeerManager as an object whose maps and lists its methods change in place. Every
  public method takes the state of `PeerModel` one step; the loops and early returns are the
  source's own.

  A connection record is the value its number maps to, and `byRemote` names the record by its number.
 */
module PeerManager {
  import opened Arith
  import opened Option
  import opened PeerModel
  import opened PeerInvariant

  class Manager {
    const fdMax: nat
    var conns: map<nat, Conn>
    var byRemote: map<NodeId, nat>
    var readyFds: seq<nat>
    var acceptWaiters: seq<Callback>
    var connectionCounts: map<nat, nat>
    var acceptedCounts: map<nat, nat>
    var runtimeCloseCounts: map<nat, nat>
    var nextFd: nat
    /** What the current operation has posted and called so far. */
    var log: seq<Output>

    function View(): Node
      reads this
    {
      Node(conns, byRemote, readyFds, acceptWaiters, nextFd, connectionCounts, acceptedCounts, runtimeCloseCounts, log)
    }

    ghost predicate Valid()
      reads this
    {
      Inv(View(), fdMax)
    }

    constructor (fdMax: nat)
      ensures Valid() && View() == Init() && this.fdMax == fdMax
    {
      this.fdMax := fdMax;
      conns, byRemote, readyFds, acceptWaiters, nextFd := map[], map[], [], [], 0;
      connectionCounts, acceptedCounts, runtimeCloseCounts, log := map[], map[], map[], [];
    }

    /** Scans all numbers once, cyclically from where the last scan stopped. */
    method NextFd() returns (fd: Option<nat>)
      modifies this`nextFd
      ensures match NewFd(old(View()), fdMax)
              case Found(x, next) => fd == Some(x) && x !in conns && nextFd == next
              case Full(next) => fd == None && nextFd == next
    {
      var i := 0;
      while i < fdMax
        invariant i <= fdMax
        invariant ScanFds(conns.Keys, fdMax, old(nextFd), fdMax) == ScanFds(conns.Keys, fdMax, nextFd, fdMax - i)
      {
        if nextFd >= fdMax {
          nextFd := 0;
        }
        var x := nextFd;
        nextFd := nextFd + 1;
        if x !in conns {
          return Some(x);
        }
        i := i + 1;
      }
      fd := None;
    }

    /** Stops a connection and settles what it owes; its number stays reserved. */
    method Kill(fd: nat)
      requires fd in conns
      modifies this
      ensures View() == Tombstone(old(View()), fd)
    {
      var conn := conns[fd];
      if conn.closed {
        return;
      }
      conns := conns[fd := conns[fd].(closed := true)];
      if conn.remote in byRemote && byRemote[conn.remote] == fd {
        byRemote := byRemote - {conn.remote};
      }
      readyFds := Without(readyFds, fd);
      conns := conns[fd := conns[fd].(queue := [], queuedBytes := 0)];
      conns := conns[fd := conns[fd].(wake := None)];
      log := log + WakeFalse(conn.wake);
      conns := conns[fd := conns[fd].(accepted := None)];
      log := log + AcceptedFalse(conn.accepted);
      assert conns == old(conns)[fd := Dead(conn)];
    }

    method Open(fd: nat, remote: NodeId)
      requires fd !in conns
      modifies this
      ensures View() == CreateConn(old(View()), fd, remote)
    {
      if remote in byRemote && byRemote[remote] in conns {
        Kill(byRemote[remote]);
      }
      conns := conns[fd := Conn(remote, false, [], 0, None, None)];
      byRemote := byRemote[remote := fd];
      connectionCounts := Bump(connectionCounts, fd);
    }

    method HandOver(fd: nat, done: Callback) returns (settled: bool)
      modifies this
      ensures settled == Settles(old(View()), fd) && View() == SettleAccept(old(View()), fd, done)
    {
      if fd !in conns || conns[fd].closed {
        return false;
      }
      log := log + [Posted(conns[fd].remote, Accepted), AcceptDone(done, fd)];
      acceptedCounts := Bump(acceptedCounts, fd);
      settled := true;
    }

    method OnConnect(remote: NodeId)
      modifies this
      ensures View() == HandleConnect(old(View()), fdMax, remote)
    {
      hide CreateConn, ScanFds;
      var fd := NextFd();
      if fd.None? {
        return;
      }
      Open(fd.value, remote);
      if acceptWaiters != [] {
        var waiter := acceptWaiters[0];
        acceptWaiters := acceptWaiters[1..];
        var settled := HandOver(fd.value, waiter);
        if !settled {
          acceptWaiters := [waiter] + acceptWaiters;
        }
        return;
      }
      readyFds := readyFds + [fd.value];
    }

    /** The loop that copies queued pieces out, up to `len` bytes. */
    method DrainQueue(fd: nat, len: nat, cb: Callback) returns (written: nat)
      requires fd in conns
      modifies this`log, this`conns
      ensures written == Drain(old(conns[fd].queue), len).written
      ensures conns == old(conns)[fd := Rest(old(conns[fd]), len)]
      ensures log == old(log) + Writes(cb, Drain(old(conns[fd].queue), len).pieces)
    {
      hide Drain, Writes, DrainedSoFar;
      written := 0;
      var remaining: nat := len;
      ghost var done: seq<Bytes> := [];
      ghost var start := conns[fd];
      DrainStart(start.queue, len, cb);
      while |conns[fd].queue| > 0 && remaining > 0
        invariant fd in conns
        invariant conns == old(conns)[fd := start.(queue := conns[fd].queue, queuedBytes := start.queuedBytes - written)]
        invariant DrainedSoFar(Drain(start.queue, len), done, written, Drain(conns[fd].queue, remaining))
        invariant log == old(log) + Writes(cb, done)
        decreases |conns[fd].queue|, remaining
      {
        var queue := conns[fd].queue;
        var head := queue[0];
        var take := if remaining < |head| then remaining else |head|;
        DrainOnce(queue, remaining, take, Drain(start.queue, len), done, written);
        log := log + [Wrote(cb, head[..take])];
        WritesAppend(cb, done, head[..take]);
        done := done + [head[..take]];
        var rest := if take < |head| then [head[take..]] + queue[1..] else queue[1..];
        conns := conns[fd := conns[fd].(queue := rest, queuedBytes := conns[fd].queuedBytes - take)];
        written := written + take;
        remaining := remaining - take;
      }
      DrainEnd(Drain(start.queue, len), done, written, conns[fd].queue, remaining);
    }

    method OnData(remote: NodeId, bytes: Bytes)
      modifies this
      ensures View() == HandleData(old(View()), remote, bytes)
    {
      hide Drain, Rest, Writes;
      if remote !in byRemote || byRemote[remote] !in conns || bytes == [] {
        return;
      }
      var fd := byRemote[remote];
      var conn := conns[fd];
      conns := conns[fd := Filled(conn, bytes)];
      if conn.wake.Some? {
        if conn.closed {
          log := log + [RecvDone(conn.wake.value.cb, false)];
        } else {
          var written := DrainQueue(fd, conn.wake.value.len, conn.wake.value.cb);
          log := log + [RecvDone(conn.wake.value.cb, true)];
        }
      }
    }

    method OnAccepted(remote: NodeId)
      modifies this
      ensures View() == HandleAccepted(old(View()), remote)
    {
      if remote !in byRemote || byRemote[remote] !in conns {
        return;
      }
      var fd := byRemote[remote];
      var accepted := conns[fd].accepted;
      conns := conns[fd := conns[fd].(accepted := None)];
      if accepted.Some? {
        log := log + [ConnectDone(accepted.value, fd)];
      }
    }

    /** A frame addressed to this node arrives from the bus. */
    method OnMessage(from: NodeId, frame: Frame)
      requires Valid()
      modifies this
      ensures Valid() && View() == Step(old(View()), fdMax, OpFrame(from, frame))
    {
      hide Inv, HandleConnect, HandleAccepted, HandleData, Tombstone;
      StepKeeps(View(), fdMax, OpFrame(from, frame));
      log := [];
      match frame {
        case Connect => OnConnect(from);
        case Accepted => OnAccepted(from);
        case Data(bytes) => OnData(from, bytes);
        case Close =>
          if from in byRemote && byRemote[from] in conns {
            Kill(byRemote[from]);
          }
        case Unknown =>
      }
    }

    /** Opens a connection to a remote; `done` hears of it when the remote accepts or it dies. */
    method Connect(remote: NodeId, done: Callback)
      requires Valid()
      modifies this
      ensures Valid() && View() == Step(old(View()), fdMax, OpConnect(remote, done))
    {
      hide Inv, Supersede, ScanFds;
      StepKeeps(View(), fdMax, OpConnect(remote, done));
      log := [];
      var fd := NextFd();
      if fd.None? {
        log := log + [ConnectDone(done, -1)];
        return;
      }
      Open(fd.value, remote);
      conns := conns[fd.value := conns[fd.value].(accepted := Some(done))];
      log := log + [Posted(remote, PeerModel.Connect)];
    }

    /** Takes the first ready connection, or waits for the next one. */
    method Accept(done: Callback)
      requires Valid()
      modifies this
      ensures Valid() && View() == Step(old(View()), fdMax, OpAccept(done))
    {
      hide Inv;
      StepKeeps(View(), fdMax, OpAccept(done));
      log := [];
      ghost var start := View();
      while |readyFds| > 0
        invariant DoAccept(start, done) == DoAccept(View(), done)
        decreases |readyFds|
      {
        ghost var before := View();
        var fd := readyFds[0];
        readyFds := readyFds[1..];
        ghost var popped := View();
        var settled := HandOver(fd, done);
        if settled {
          return;
        }
        assert View() == popped;
      }
      acceptWaiters := acceptWaiters + [done];
    }

    /** Takes at most `SEND_CHUNK_BYTES`; `postOk` is false when the bus refuses the frame. */
    method Send(fd: nat, data: Bytes, postOk: bool) returns (taken: int)
      requires Valid()
      modifies this`log
      ensures Valid() && View() == Step(old(View()), fdMax, OpSend(fd, data, postOk))
      ensures taken == SendResult(old(View()), fd, data, postOk)
    {
      hide Inv;
      StepKeeps(View(), fdMax, OpSend(fd, data, postOk));
      log := [];
      if fd !in conns || conns[fd].closed {
        return -1;
      }
      if |data| == 0 {
        return 0;
      }
      var take := if SEND_CHUNK_BYTES < |data| then SEND_CHUNK_BYTES else |data|;
      if !postOk {
        return -1;
      }
      log := log + [Posted(conns[fd].remote, Data(data[..take]))];
      taken := take;
    }

    /** Reads what is queued, or parks until data arrives or the connection dies. */
    method Recv(fd: nat, len: nat, done: Callback)
      requires Valid() && len > 0
      modifies this
      ensures Valid() && View() == Step(old(View()), fdMax, OpRecv(fd, PeerModel.Recv(len, done)))
    {
      hide Inv, Drain;
      ghost var r := PeerModel.Recv(len, done);
      StepKeeps(View(), fdMax, OpRecv(fd, r));
      RecvFacts(View(), fdMax, fd, len);
      log := [];
      if fd !in conns || conns[fd].closed {
        log := log + [RecvDone(done, false)];
        return;
      }
      var written := DrainQueue(fd, len, done);
      if written > 0 {
        log := log + [RecvDone(done, true)];
        return;
      }
      assert conns == old(conns);
      conns := conns[fd := conns[fd].(wake := Some(PeerModel.Recv(len, done)))];
    }

    /** The Runtime closes a number; nothing else releases it. */
    method CloseConnection(fd: nat) returns (status: int)
      requires Valid()
      modifies this
      ensures Valid() && View() == Step(old(View()), fdMax, OpCloseConnection(fd))
      ensures status == if fd in old(conns) then 0 else -1
    {
      hide Inv, Tombstone;
      StepKeeps(View(), fdMax, OpCloseConnection(fd));
      log := [];
      if fd !in conns {
        return -1;
      }
      if !conns[fd].closed {
        log := log + [Posted(conns[fd].remote, PeerModel.Close)];
        Kill(fd);
      }
      conns := conns - {fd};
      runtimeCloseCounts := Bump(runtimeCloseCounts, fd);
      status := 0;
    }

    /** Tombstones every connection, in the given insertion order, and releases none. */
    method Close(order: seq<nat>)
      requires Valid() && Distinct(order) && ToSet(order) == conns.Keys
      modifies this
      ensures forall fd :: fd in order ==> fd in old(conns)
      ensures Valid() && View() == Step(old(View()), fdMax, OpClose(order))
    {
      hide Inv, Tombstone;
      StepKeeps(View(), fdMax, OpClose(order));
      log := [];
      ghost var start := View();
      var i := 0;
      while i < |order|
        invariant i <= |order|
        invariant forall fd :: fd in order[i..] ==> fd in conns
        invariant TombstoneAll(start, order) == TombstoneAll(View(), order[i..])
      {
        assert order[i..][0] == order[i] && order[i..][1..] == order[i + 1..];
        TombstoneReserves(View(), order[i]);
        Kill(order[i]);
        i := i + 1;
      }
      byRemote := map[];
      readyFds := [];
    }
  }

  lemma TombstoneReserves(n: Node, fd: nat)
    requires fd in n.conns
    ensures Tombstone(n, fd).conns.Keys == n.conns.Keys
  {
  }

  lemma {:induction false} WritesAppend(cb: Callback, pieces: seq<Bytes>, piece: Bytes)
    ensures Writes(cb, pieces + [piece]) == Writes(cb, pieces) + [Wrote(cb, piece)]
  {
    if pieces != [] {
      assert (pieces + [piece])[1..] == pieces[1..] + [piece];
      WritesAppend(cb, pieces[1..], piece);
    }
  }

  /** `d` is what has been written already followed by what draining the rest will write. */
  ghost predicate DrainedSoFar(d: Drained, done: seq<Bytes>, written: nat, rest: Drained) {
    d.pieces == done + rest.pieces && d.queue == rest.queue && d.written == written + rest.written
  }

  lemma DrainStart(queue: seq<Bytes>, len: nat, cb: Callback)
    ensures DrainedSoFar(Drain(queue, len), [], 0, Drain(queue, len)) && Writes(cb, []) == []
  {
  }

  lemma DrainEnd(d: Drained, done: seq<Bytes>, written: nat, queue: seq<Bytes>, len: nat)
    requires (queue == [] || len == 0) && DrainedSoFar(d, done, written, Drain(queue, len))
    ensures d == Drained(done, queue, written)
  {
  }

  /** One turn of the loop takes the first piece that draining would take. */
  lemma DrainOnce(queue: seq<Bytes>, len: nat, take: nat, d: Drained, done: seq<Bytes>, written: nat)
    requires queue != [] && len > 0 && take == if len < |queue[0]| then len else |queue[0]|
    requires DrainedSoFar(d, done, written, Drain(queue, len))
    ensures DrainedSoFar(d, done + [queue[0][..take]], written + take,
                         Drain(if take < |queue[0]| then [queue[0][take..]] + queue[1..] else queue[1..], len - take))
  {
    var piece := queue[0][..take];
    var rest := Drain(if take < |queue[0]| then [queue[0][take..]] + queue[1..] else queue[1..], len - take);
    if take == |queue[0]| {
      assert piece == queue[0];
    }
    assert Drain(queue, len).pieces == [piece] + rest.pieces;
    assert done + ([piece] + rest.pieces) == (done + [piece]) + rest.pieces;
  }

  /** A read that takes no bytes found an empty queue, and leaves it so. */
  lemma RecvFacts(n: Node, fdMax: nat, fd: nat, len: nat)
    requires Inv(n, fdMax) && len > 0
    ensures Settles(n, fd) && Drain(n.conns[fd].queue, len).written == 0 ==>
              Drain(n.conns[fd].queue, len) == Drained([], n.conns[fd].queue, 0)
  {
  }
}
