/**
  What can be seen of an operation from outside, frame by frame and callback by callback, and what a
  close does at the other end of the bus.
 */
module PeerFrames {
  import opened Arith
  import opened Option
  import opened PeerModel
  import opened PeerInvariant
  import opened PeerAccept
  import opened PeerStreams
  import opened PeerBus
  import opened PeerBusExact

  /** What a connection that stops owes: its parked reader and its connector hear that it is over. */
  function Farewell(conn: Conn): seq<Output> {
    (match conn.wake case Some(r) => [RecvDone(r.cb, false)] case None => [])
    + (match conn.accepted case Some(cb) => [ConnectDone(cb, -1)] case None => [])
  }

  /** The live connection to a remote, if there is one. */
  ghost predicate Current(n: Node, remote: NodeId, fd: nat) { Live(n, fd) && n.conns[fd].remote == remote }

  ghost function FarewellTo(n: Node, remote: NodeId): seq<Output> {
    if fd: nat :| Current(n, remote, fd) then Farewell(n.conns[fd]) else []
  }

  lemma FarewellIs(n: Node, fdMax: nat, remote: NodeId)
    requires Inv(n, fdMax)
    ensures if remote in n.byRemote then Current(n, remote, n.byRemote[remote]) && FarewellTo(n, remote) == Farewell(n.conns[n.byRemote[remote]])
            else FarewellTo(n, remote) == []
  {
    if fd: nat :| Current(n, remote, fd) {
      assert n.byRemote[remote] == fd;
    }
  }

  lemma SupersedeSays(n: Node, fdMax: nat, remote: NodeId)
    requires Inv(n, fdMax)
    ensures Supersede(n, remote).log == n.log + FarewellTo(n, remote) && Supersede(n, remote).acceptWaiters == n.acceptWaiters
  {
    hide NumbersOk, QueuesOk, ReadyOk;
    FarewellIs(n, fdMax, remote);
  }

  /** The bytes handed to one reader, who then hears of success. */
  ghost predicate Reads(log: seq<Output>, cb: Callback, bytes: Bytes) {
    && log != [] && log[|log| - 1] == RecvDone(cb, true)
    && (forall i :: 0 <= i < |log| - 1 ==> log[i].Wrote? && log[i].cb == cb)
    && Copied(log) == bytes
  }

  lemma {:induction false} WritesTo(cb: Callback, pieces: seq<Bytes>)
    ensures |Writes(cb, pieces)| == |pieces| && forall i :: 0 <= i < |pieces| ==> Writes(cb, pieces)[i] == Wrote(cb, pieces[i])
  {
    if pieces != [] {
      WritesTo(cb, pieces[1..]);
    }
  }

  function Front(bytes: Bytes, len: nat): Bytes { if len < |bytes| then bytes[..len] else bytes }

  lemma CompleteReads(n: Node, fd: nat, r: Recv)
    requires fd in n.conns && n.log == [] && forall i :: 0 <= i < |n.conns[fd].queue| ==> n.conns[fd].queue[i] != []
    ensures Reads(Complete(n, fd, r).log, r.cb, Front(Flat(n.conns[fd].queue), r.len))
  {
    hide Drain, Writes, Flat, Copied;
    var queue := n.conns[fd].queue;
    CompleteCopies(n, fd, r);
    DrainFacts(queue, r.len);
    WritesTo(r.cb, Drain(queue, r.len).pieces);
  }

  // ----- the outputs of every operation -----

  ghost predicate NoneFree(n: Node, fdMax: nat) { forall fd: nat :: fd < fdMax ==> fd in n.conns }

  lemma NoneFreeIsFull(n: Node, fdMax: nat)
    requires Inv(n, fdMax)
    ensures NoneFree(n, fdMax) <==> NewFd(n, fdMax).Full?
    ensures NewFd(n.(log := []), fdMax) == NewFd(n, fdMax)
  {
    NewFdIsFirstFree(n, fdMax);
    SameNumbers(n, fdMax);
  }

  /** `connect`: -1 at once without a free number; otherwise the previous connection ends, and one connect frame goes out. */
  lemma ConnectSays(n: Node, fdMax: nat, remote: NodeId, cb: Callback)
    requires Inv(n, fdMax)
    ensures Step(n, fdMax, OpConnect(remote, cb)).log ==
            if NoneFree(n, fdMax) then [ConnectDone(cb, -1)] else FarewellTo(n, remote) + [Posted(remote, Connect)]
  {
    hide Inv, NewFd, Supersede, FarewellTo;
    NoneFreeIsFull(n, fdMax);
    var k := n.(log := []).(nextFd := NewFd(n, fdMax).next);
    LogKeeps(n, fdMax, []);
    if NewFd(n, fdMax).Found? {
      NewFdBounds(n, fdMax);
      NextKeeps(n.(log := []), fdMax, NewFd(n, fdMax).next);
      SupersedeSays(k, fdMax, remote);
      FarewellSame(n, k, fdMax, remote);
      assert [] + FarewellTo(k, remote) == FarewellTo(k, remote);
    }
  }

  lemma FarewellSame(n: Node, k: Node, fdMax: nat, remote: NodeId)
    requires k.conns == n.conns && k.byRemote == n.byRemote && Inv(n, fdMax) && Inv(k, fdMax)
    ensures FarewellTo(k, remote) == FarewellTo(n, remote)
  {
    hide Inv, FarewellTo;
    FarewellIs(n, fdMax, remote);
    FarewellIs(k, fdMax, remote);
  }

  /** `accept`: the first ready connection's remote is told, and the caller gets its number; or nothing yet. */
  lemma AcceptSays(n: Node, fdMax: nat, cb: Callback)
    requires Inv(n, fdMax)
    ensures n.readyFds != [] ==> Live(n, n.readyFds[0])
    ensures Step(n, fdMax, OpAccept(cb)).log ==
            if n.readyFds == [] then [] else [Posted(n.conns[n.readyFds[0]].remote, Accepted), AcceptDone(cb, n.readyFds[0])]
  {
    hide Inv;
    LogKeeps(n, fdMax, []);
    AcceptTakesFirst(n.(log := []), fdMax, cb);
  }

  /** `send`: at most 256 KiB from the front, to the connection's remote, and how much that was. */
  lemma SendSays(n: Node, fdMax: nat, fd: nat, data: Bytes, postOk: bool)
    ensures Step(n, fdMax, OpSend(fd, data, postOk)).log ==
            if Live(n, fd) && data != [] && postOk then [Posted(n.conns[fd].remote, Data(Front(data, 262144)))] else []
    ensures SendResult(n, fd, data, postOk) ==
            if !Live(n, fd) then -1 else if data == [] then 0 else if postOk then |Front(data, 262144)| else -1
  {
    assert data[..|data|] == data;
  }

  /** `recv`: false without a live connection; bytes if there are any; otherwise the reader is parked. */
  lemma RecvSays(n: Node, fdMax: nat, fd: nat, r: Recv)
    requires Inv(n, fdMax) && r.len > 0
    ensures var m := Step(n, fdMax, OpRecv(fd, r));
            if !Live(n, fd) then m.log == [RecvDone(r.cb, false)] && m.conns == n.conns
            else if n.conns[fd].queue == [] then m.log == [] && m.conns == n.conns[fd := n.conns[fd].(wake := Some(r))]
            else Reads(m.log, r.cb, Front(Flat(n.conns[fd].queue), r.len))
  {
    hide Complete, Drain, Flat, Reads;
    if Live(n, fd) {
      var k := n.(log := []);
      assert QueueOk(n.conns[fd]);
      DrainTakes(n.conns[fd], r.len);
      CompleteReads(k, fd, r);
    }
  }

  /** `close_connection`: a live connection's remote is told, then what the connection owes is settled; a dead one is silent. */
  lemma CloseSays(n: Node, fdMax: nat, fd: nat)
    ensures Step(n, fdMax, OpCloseConnection(fd)).log ==
            if Live(n, fd) then [Posted(n.conns[fd].remote, Close)] + Farewell(n.conns[fd]) else []
  {
  }

  /** A connect frame: nothing without a free number; otherwise the previous connection ends, and a waiting
      `accept` gets the number, of which the sender is told. */
  lemma ConnectFrameSays(n: Node, fdMax: nat, from: NodeId)
    requires Inv(n, fdMax)
    ensures var log := Step(n, fdMax, OpFrame(from, Connect)).log;
            if NoneFree(n, fdMax) then log == []
            else if n.acceptWaiters == [] then log == FarewellTo(n, from)
            else exists fd: nat :: FirstFree(n.conns.Keys, fdMax, n.nextFd, fd)
                   && log == FarewellTo(n, from) + [Posted(from, Accepted), AcceptDone(n.acceptWaiters[0], fd)]
  {
    hide Inv, NewFd, Supersede, FarewellTo, HandleConnect;
    NoneFreeIsFull(n, fdMax);
    LogKeeps(n, fdMax, []);
    var k := n.(log := []);
    if NewFd(n, fdMax).Found? {
      NewFdBounds(n, fdMax);
      NextInRange(n, fdMax);
      NewFdIsFirstFree(n, fdMax);
      NextKeeps(k, fdMax, NewFd(n, fdMax).next);
      var p := k.(nextFd := NewFd(n, fdMax).next);
      SupersedeSays(p, fdMax, from);
      FarewellSame(n, p, fdMax, from);
      HandOverNeverFails(k, fdMax, from);
      assert [] + FarewellTo(p, from) == FarewellTo(p, from);
    } else {
      FullSaysNothing(k, fdMax, from);
    }
  }

  lemma FullSaysNothing(n: Node, fdMax: nat, from: NodeId)
    requires NewFd(n, fdMax).Full?
    ensures HandleConnect(n, fdMax, from).log == n.log
  {
  }

  /** The other frames: `accepted` tells the connector that waits on the live connection its number, once;
      data goes to its parked reader or behind its queue; `close` ends it. */
  lemma FrameSays(n: Node, fdMax: nat, from: NodeId, frame: Frame)
    requires Inv(n, fdMax) && !frame.Connect?
    ensures var m := Step(n, fdMax, OpFrame(from, frame));
            if fd: nat :| Current(n, from, fd) then
              var conn := n.conns[fd];
              match frame
              case Accepted =>
                m.log == (if conn.accepted.Some? then [ConnectDone(conn.accepted.value, fd)] else [])
                && m.conns == n.conns[fd := conn.(accepted := None)]
              case Data(bytes) =>
                if bytes == [] then m.log == [] && m.conns == n.conns
                else if conn.wake.Some? then Reads(m.log, conn.wake.value.cb, Front(bytes, conn.wake.value.len))
                else m.log == [] && m.conns == n.conns[fd := conn.(queue := conn.queue + [bytes], queuedBytes := conn.queuedBytes + |bytes|)]
              case Close => m.log == Farewell(conn) && !Live(m, fd) && fd in m.conns
              case _ => m.log == [] && m.conns == n.conns
            else m.log == [] && m.conns == n.conns
  {
    hide Drain, Writes, Reads, Flat, NumbersOk, ReadyOk;
    FarewellIs(n, fdMax, from);
    if from in n.byRemote {
      var fd, k := n.byRemote[from], n.(log := []);
      assert QueueOk(n.conns[fd]);
      assert forall x: nat :: Current(n, from, x) ==> x == fd;
      if frame.Data? && frame.bytes != [] && n.conns[fd].wake.Some? {
        var filled := Filled(n.conns[fd], frame.bytes);
        FlatOne(frame.bytes);
        CompleteReads(k.(conns := k.conns[fd := filled]), fd, n.conns[fd].wake.value);
      }
    }
  }

  lemma FlatOne(bytes: Bytes)
    ensures Flat([] + [bytes]) == bytes
  {
    assert [bytes][1..] == [];
    assert bytes + [] == bytes;
  }

  /** Closing the manager: nothing is posted, nobody is told of success, and every number stays reserved, dead. */
  lemma {:induction false} ClosingSays(n: Node, order: seq<nat>)
    requires forall fd :: fd in order ==> fd in n.conns
    requires forall i :: 0 <= i < |n.log| ==> IsFarewell(n.log[i])
    ensures var m := TombstoneAll(n, order);
            && (forall i :: 0 <= i < |m.log| ==> IsFarewell(m.log[i]))
            && m.conns.Keys == n.conns.Keys && (forall fd :: fd in order ==> m.conns[fd].closed)
            && (forall fd :: fd in n.conns && n.conns[fd].closed ==> m.conns[fd].closed)
    decreases |order|
  {
    hide Tombstone;
    if order != [] {
      TombstoneSays(n, order[0]);
      ClosingSays(Tombstone(n, order[0]), order[1..]);
    }
  }

  predicate IsFarewell(o: Output) { (o.RecvDone? && !o.ok) || (o.ConnectDone? && o.fd == -1) }

  lemma TombstoneSays(n: Node, fd: nat)
    requires fd in n.conns && forall i :: 0 <= i < |n.log| ==> IsFarewell(n.log[i])
    ensures var m := Tombstone(n, fd);
            && (forall i :: 0 <= i < |m.log| ==> IsFarewell(m.log[i]))
            && m.conns.Keys == n.conns.Keys && m.conns[fd].closed && (forall x :: x in n.conns && n.conns[x].closed ==> m.conns[x].closed)
  {
  }

  lemma CloseAllSays(n: Node, fdMax: nat, order: seq<nat>)
    requires Allowed(n, OpClose(order))
    ensures forall fd :: fd in order ==> fd in n.conns
    ensures var m := Step(n, fdMax, OpClose(order));
            && (forall i :: 0 <= i < |m.log| ==> IsFarewell(m.log[i]))
            && m.conns.Keys == n.conns.Keys && (forall fd :: fd in n.conns ==> m.conns[fd].closed)
            && m.acceptWaiters == n.acceptWaiters
  {
    hide TombstoneAll;
    ClosingSays(n.(log := []), order);
    ClosingKeepsWaiters(n.(log := []), order);
  }

  lemma {:induction false} ClosingKeepsWaiters(n: Node, order: seq<nat>)
    requires forall fd :: fd in order ==> fd in n.conns
    ensures TombstoneAll(n, order).acceptWaiters == n.acceptWaiters
    decreases |order|
  {
    if order != [] {
      ClosingKeepsWaiters(Tombstone(n, order[0]), order[1..]);
    }
  }

  // ----- a close at the other end of the bus -----

  lemma {:induction false} FarewellPostsNothing(log: seq<Output>, to: NodeId)
    requires forall i :: 0 <= i < |log| ==> !log[i].Posted?
    ensures Posts(log, to) == []
  {
    if log != [] {
      FarewellPostsNothing(log[1..], to);
    }
  }

  /** Closing a live number posts one close frame, and nothing else. */
  lemma ClosePosts(n: Node, fdMax: nat, remote: NodeId, fd: nat)
    requires AllTo(n, remote) && Live(n, fd)
    ensures Posts(Step(n, fdMax, OpCloseConnection(fd)).log, remote) == [Close]
  {
    hide Step;
    CloseSays(n, fdMax, fd);
    var bye := Farewell(n.conns[fd]);
    FarewellPostsNothing(bye, remote);
    assert ([Posted(remote, Close)] + bye)[1..] == bye;
  }

  /** How many frames a run delivers to the acceptor, and to the connector. */
  function ToB(moves: seq<Move>): nat { if moves == [] then 0 else (if moves[0].ToAcceptor? then 1 else 0) + ToB(moves[1..]) }
  function ToA(moves: seq<Move>): nat { if moves == [] then 0 else (if moves[0].ToConnector? then 1 else 0) + ToA(moves[1..]) }

  lemma DropMore(x: seq<Frame>, k: nat)
    requires k < |x|
    ensures x[1..][k..] == x[k + 1..]
  {
  }

  /** Channels keep the order of frames: what was under way is still there, short of what has been delivered. */
  lemma {:induction false} KeepsOrderToB(bus: Bus, fdMaxA: nat, fdMaxB: nat, moves: seq<Move>, ab: seq<Frame>)
    requires Possible(bus, fdMaxA, fdMaxB, moves) && ab <= bus.ab && ToB(moves) <= |ab|
    ensures ab[ToB(moves)..] <= Reached(bus, fdMaxA, fdMaxB, moves).ab
    decreases |moves|
  {
    hide Can, Next;
    if moves != [] {
      NextKeepsOrder(bus, fdMaxA, fdMaxB, moves[0], ab, []);
      if moves[0].ToAcceptor? {
        KeepsOrderToB(Next(bus, fdMaxA, fdMaxB, moves[0]), fdMaxA, fdMaxB, moves[1..], ab[1..]);
        DropMore(ab, ToB(moves[1..]));
      } else {
        KeepsOrderToB(Next(bus, fdMaxA, fdMaxB, moves[0]), fdMaxA, fdMaxB, moves[1..], ab);
      }
    }
  }

  lemma {:induction false} KeepsOrderToA(bus: Bus, fdMaxA: nat, fdMaxB: nat, moves: seq<Move>, ba: seq<Frame>)
    requires Possible(bus, fdMaxA, fdMaxB, moves) && ba <= bus.ba && ToA(moves) <= |ba|
    ensures ba[ToA(moves)..] <= Reached(bus, fdMaxA, fdMaxB, moves).ba
    decreases |moves|
  {
    hide Can, Next;
    if moves != [] {
      NextKeepsOrder(bus, fdMaxA, fdMaxB, moves[0], [], ba);
      if moves[0].ToConnector? {
        KeepsOrderToA(Next(bus, fdMaxA, fdMaxB, moves[0]), fdMaxA, fdMaxB, moves[1..], ba[1..]);
        DropMore(ba, ToA(moves[1..]));
      } else {
        KeepsOrderToA(Next(bus, fdMaxA, fdMaxB, moves[0]), fdMaxA, fdMaxB, moves[1..], ba);
      }
    }
  }

  lemma NextKeepsOrder(bus: Bus, fdMaxA: nat, fdMaxB: nat, move: Move, ab: seq<Frame>, ba: seq<Frame>)
    requires Can(bus, move) && ab <= bus.ab && ba <= bus.ba
    ensures var next := Next(bus, fdMaxA, fdMaxB, move);
            && (if move.ToAcceptor? then ab == [] || ab[1..] <= next.ab else ab <= next.ab)
            && (if move.ToConnector? then ba == [] || ba[1..] <= next.ba else ba <= next.ba)
  {
    hide Step, Posts, Allowed;
  }

  /** Nobody is alive after a close frame, and the connection it ended has settled what it owed. */
  lemma CloseEnds(n: Node, fdMax: nat, remote: NodeId)
    requires Inv(n, fdMax) && AllTo(n, remote)
    ensures var m := Step(n, fdMax, OpFrame(remote, Close));
            && (forall fd :: !Live(m, fd))
            && (forall fd: nat :: Live(n, fd) ==> m.log == Farewell(n.conns[fd]))
  {
    hide Inv, Step;
    var op := OpFrame(remote, Close);
    FrameSays(n, fdMax, remote, Close);
    FarewellIs(n, fdMax, remote);
    OneAlive(n, fdMax, remote);
    forall fd: nat | Live(n, fd)
      ensures Step(n, fdMax, op).log == Farewell(n.conns[fd])
    {
      assert Current(n, remote, fd);
    }
    forall fd
      ensures !Live(Step(n, fdMax, op), fd)
    {
      LivesExactly(n, fdMax, op, fd);
    }
  }

  /** A place any run comes to: both nodes keep their invariants, and talk to each other only. */
  lemma RunIsSound(fdMaxA: nat, fdMaxB: nat, moves: seq<Move>)
    requires Possible(Quiet, fdMaxA, fdMaxB, moves)
    ensures var bus := Reached(Quiet, fdMaxA, fdMaxB, moves);
            Inv(bus.a, fdMaxA) && AllTo(bus.a, ACCEPTOR) && Inv(bus.b, fdMaxB) && AllTo(bus.b, CONNECTOR)
  {
    hide Inv, AllTo, StreamsOk, Latest, Posting, Split, Possible, Reached, Traced, Fair;
    QuietLosesNothing(fdMaxA, fdMaxB);
    var lost := RunLoses(Quiet, fdMaxA, fdMaxB, moves, Unseen, 0);
  }

  /**
    The connector closes a live connection; whatever happens then, once as many frames as were under way
    have been delivered, the next delivery is the close: after it nothing of the acceptor's is alive, and
    the callbacks parked on what was alive have been called.
   */
  lemma CloseIsHeard(fdMaxA: nat, fdMaxB: nat, before: seq<Move>, fd: nat, after: seq<Move>)
    requires Possible(Quiet, fdMaxA, fdMaxB, before + [AtConnector(OpCloseConnection(fd))] + after)
    requires Possible(Quiet, fdMaxA, fdMaxB, before) && Live(Reached(Quiet, fdMaxA, fdMaxB, before).a, fd)
    requires ToB(after) == |Reached(Quiet, fdMaxA, fdMaxB, before).ab|
    ensures var bus := Reached(Quiet, fdMaxA, fdMaxB, before + [AtConnector(OpCloseConnection(fd))] + after);
            && Can(bus, ToAcceptor) && bus.ab[0] == Close
            && var b := Next(bus, fdMaxA, fdMaxB, ToAcceptor).b;
            && (forall x :: !Live(b, x)) && (forall x: nat :: Live(bus.b, x) ==> b.log == Farewell(bus.b.conns[x]))
  {
    hide Inv, AllTo, Possible, Reached, Traced, Fair, Posts, Step, Farewell;
    var close := AtConnector(OpCloseConnection(fd));
    var run := before + [close];
    RunsSplit(fdMaxA, fdMaxB, before, close, after);
    RunIsSound(fdMaxA, fdMaxB, before);
    RunIsSound(fdMaxA, fdMaxB, run + after);
    var bus0, bus1, bus := Reached(Quiet, fdMaxA, fdMaxB, before), Reached(Quiet, fdMaxA, fdMaxB, run), Reached(Quiet, fdMaxA, fdMaxB, run + after);
    ClosePosts(bus0.a, fdMaxA, ACCEPTOR, fd);
    assert bus1.ab == bus0.ab + [Close];
    KeepsOrderToB(bus1, fdMaxA, fdMaxB, after, bus1.ab);
    assert bus1.ab[|bus0.ab|..] == [Close];
    CloseEnds(bus.b, fdMaxB, CONNECTOR);
  }

  /** The same with the acceptor closing. */
  lemma CloseIsHeardBack(fdMaxA: nat, fdMaxB: nat, before: seq<Move>, fd: nat, after: seq<Move>)
    requires Possible(Quiet, fdMaxA, fdMaxB, before + [AtAcceptor(OpCloseConnection(fd))] + after)
    requires Possible(Quiet, fdMaxA, fdMaxB, before) && Live(Reached(Quiet, fdMaxA, fdMaxB, before).b, fd)
    requires ToA(after) == |Reached(Quiet, fdMaxA, fdMaxB, before).ba|
    ensures var bus := Reached(Quiet, fdMaxA, fdMaxB, before + [AtAcceptor(OpCloseConnection(fd))] + after);
            && Can(bus, ToConnector) && bus.ba[0] == Close
            && var a := Next(bus, fdMaxA, fdMaxB, ToConnector).a;
            && (forall x :: !Live(a, x)) && (forall x: nat :: Live(bus.a, x) ==> a.log == Farewell(bus.a.conns[x]))
  {
    hide Inv, AllTo, Possible, Reached, Traced, Fair, Posts, Step, Farewell;
    var close := AtAcceptor(OpCloseConnection(fd));
    var run := before + [close];
    RunsSplit(fdMaxA, fdMaxB, before, close, after);
    RunIsSound(fdMaxA, fdMaxB, before);
    RunIsSound(fdMaxA, fdMaxB, run + after);
    var bus0, bus1, bus := Reached(Quiet, fdMaxA, fdMaxB, before), Reached(Quiet, fdMaxA, fdMaxB, run), Reached(Quiet, fdMaxA, fdMaxB, run + after);
    ClosePosts(bus0.b, fdMaxB, CONNECTOR, fd);
    assert bus1.ba == bus0.ba + [Close];
    KeepsOrderToA(bus1, fdMaxA, fdMaxB, after, bus1.ba);
    assert bus1.ba[|bus0.ba|..] == [Close];
    CloseEnds(bus.a, fdMaxA, ACCEPTOR);
  }

  /** The place a run passes through, and the move it makes there. */
  lemma RunsSplit(fdMaxA: nat, fdMaxB: nat, before: seq<Move>, move: Move, after: seq<Move>)
    requires Possible(Quiet, fdMaxA, fdMaxB, before) && Possible(Quiet, fdMaxA, fdMaxB, before + [move] + after)
    ensures var bus := Reached(Quiet, fdMaxA, fdMaxB, before);
            && Possible(Quiet, fdMaxA, fdMaxB, before + [move]) && Can(bus, move)
            && Reached(Quiet, fdMaxA, fdMaxB, before + [move]) == Next(bus, fdMaxA, fdMaxB, move)
            && Possible(Next(bus, fdMaxA, fdMaxB, move), fdMaxA, fdMaxB, after)
            && Reached(Quiet, fdMaxA, fdMaxB, before + [move] + after) == Reached(Next(bus, fdMaxA, fdMaxB, move), fdMaxA, fdMaxB, after)
  {
    hide Next, Observe, Can, HasNumber, Traced, Fair;
    var bus := Reached(Quiet, fdMaxA, fdMaxB, before);
    assert before + [move] + after == before + ([move] + after);
    RunsConcat(Quiet, fdMaxA, fdMaxB, before, [move] + after, Unseen);
    assert ([move] + after)[1..] == after && [move][1..] == [];
    RunsConcat(Quiet, fdMaxA, fdMaxB, before, [move], Unseen);
  }
}
