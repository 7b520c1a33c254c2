/**
  Two managers on a bus that keeps each sender's order. Frames name no connection, so which
  connection a `data` frame belongs to is decided by where it falls between two `connect` frames.
 */
module PeerBus {
  import opened Arith
  import opened Option
  import opened PeerModel
  import opened PeerInvariant
  import opened PeerAccept
  import opened PeerStreams

  const CONNECTOR: NodeId := 0
  const ACCEPTOR: NodeId := 1

  /** The frames an operation posted to one address. */
  function Posts(log: seq<Output>, to: NodeId): seq<Frame> {
    if log == [] then []
    else (if log[0].Posted? && log[0].to == to then [log[0].frame] else []) + Posts(log[1..], to)
  }

  lemma {:induction false} PostsConcat(a: seq<Output>, b: seq<Output>, to: NodeId)
    ensures Posts(a + b, to) == Posts(a, to) + Posts(b, to)
  {
    if a == [] {
      assert a + b == b;
    } else {
      assert (a + b)[1..] == a[1..] + b;
      PostsConcat(a[1..], b, to);
    }
  }

  // ----- the frames of one connection -----

  /** The data between two connects: one run of bytes before the first connect, then one per connect. */
  function Split(frames: seq<Frame>): (runs: seq<Bytes>)
    ensures |runs| > 0
  {
    if frames == [] then [[]]
    else
      var runs, last := Split(frames[..|frames| - 1]), frames[|frames| - 1];
      match last
      case Connect => runs + [[]]
      case Data(bytes) => runs[|runs| - 1 := runs[|runs| - 1] + bytes]
      case _ => runs
  }

  lemma SplitOne(frames: seq<Frame>, frame: Frame)
    ensures Split(frames + [frame]) ==
            match frame
            case Connect => Split(frames) + [[]]
            case Data(bytes) => Split(frames)[|Split(frames)| - 1 := Split(frames)[|Split(frames)| - 1] + bytes]
            case _ => Split(frames)
  {
  }

  /** More frames only lengthen the last run and add new ones. */
  lemma {:induction false} SplitGrows(frames: seq<Frame>, more: seq<Frame>)
    ensures |Split(frames)| <= |Split(frames + more)|
    ensures forall k :: 0 <= k < |Split(frames)| ==> Split(frames)[k] <= Split(frames + more)[k]
  {
    if more == [] {
      assert frames + more == frames;
    } else {
      var head, last := more[..|more| - 1], more[|more| - 1];
      SplitGrows(frames, head);
      SplitOne(frames + head, last);
      assert frames + more == (frames + head) + [last];
      var runs := Split(frames + head);
      assert last.Data? ==> runs[|runs| - 1] <= runs[|runs| - 1] + last.bytes;
    }
  }

  ghost predicate Plain(frame: Frame) { frame.Accepted? || frame.Close? }

  lemma {:induction false} SplitPlain(frames: seq<Frame>, more: seq<Frame>)
    requires forall i :: 0 <= i < |more| ==> Plain(more[i])
    ensures Split(frames + more) == Split(frames)
  {
    if more == [] {
      assert frames + more == frames;
    } else {
      var head, last := more[..|more| - 1], more[|more| - 1];
      SplitPlain(frames, head);
      SplitOne(frames + head, last);
      assert frames + more == (frames + head) + [last];
    }
  }

  // ----- what an operation posts -----

  ghost predicate AllTo(n: Node, remote: NodeId) {
    forall fd :: fd in n.conns ==> n.conns[fd].remote == remote
  }

  ghost predicate PlainLog(log: seq<Output>, remote: NodeId) {
    forall i :: 0 <= i < |log| && log[i].Posted? ==> log[i].to == remote && Plain(log[i].frame)
  }

  /** Every connection goes to one remote, and nothing but plain frames was posted, to it alone. */
  ghost predicate Tame(n: Node, remote: NodeId) { AllTo(n, remote) && PlainLog(n.log, remote) }

  lemma TombstoneTame(n: Node, remote: NodeId, fd: nat)
    requires Tame(n, remote) && fd in n.conns
    ensures Tame(Tombstone(n, fd), remote)
  {
  }

  lemma SupersedeTame(n: Node, remote: NodeId, from: NodeId)
    requires Tame(n, remote)
    ensures Tame(Supersede(n, from), remote)
  {
  }

  lemma CreateConnTame(n: Node, remote: NodeId, fd: nat)
    requires Tame(n, remote)
    ensures Tame(CreateConn(n, fd, remote), remote)
  {
  }

  lemma SettleTame(n: Node, remote: NodeId, fd: nat, cb: Callback)
    requires Tame(n, remote)
    ensures Tame(SettleAccept(n, fd, cb), remote)
  {
  }

  lemma ArrivalTame(n: Node, fdMax: nat, remote: NodeId)
    requires Tame(n, remote)
    ensures Tame(HandleConnect(n, fdMax, remote), remote)
  {
    hide NewFd, CreateConn, SettleAccept;
    if NewFd(n, fdMax).Found? {
      var fd := NewFd(n, fdMax).fd;
      CreateConnTame(n.(nextFd := NewFd(n, fdMax).next), remote, fd);
      var c := CreateConn(n.(nextFd := NewFd(n, fdMax).next), fd, remote);
      if c.acceptWaiters != [] {
        SettleTame(c.(acceptWaiters := c.acceptWaiters[1..]), remote, fd, c.acceptWaiters[0]);
      }
    }
  }

  lemma {:induction false} AcceptTame(n: Node, remote: NodeId, cb: Callback)
    requires Tame(n, remote)
    ensures Tame(DoAccept(n, cb), remote)
    decreases |n.readyFds|
  {
    hide SettleAccept;
    if n.readyFds != [] {
      var m := n.(readyFds := n.readyFds[1..]);
      SettleTame(m, remote, n.readyFds[0], cb);
      if !Settles(m, n.readyFds[0]) {
        AcceptTame(m, remote, cb);
      }
    }
  }

  lemma CompleteTame(n: Node, remote: NodeId, fd: nat, r: Recv)
    requires Tame(n, remote) && fd in n.conns
    ensures Tame(Complete(n, fd, r), remote)
  {
    hide Drain, Writes;
    WritesQuiet(r.cb, Drain(n.conns[fd].queue, r.len).pieces);
  }

  lemma RecvTame(n: Node, remote: NodeId, fd: nat, r: Recv)
    requires Tame(n, remote)
    ensures Tame(DoRecv(n, fd, r), remote)
  {
    hide Complete, Drain;
    if Settles(n, fd) {
      CompleteTame(n, remote, fd, r);
    }
  }

  lemma DataTame(n: Node, remote: NodeId, from: NodeId, bytes: Bytes)
    requires Tame(n, remote)
    ensures Tame(HandleData(n, from, bytes), remote)
  {
    hide Complete;
    if from in n.byRemote && n.byRemote[from] in n.conns && bytes != [] {
      var fd := n.byRemote[from];
      var conn := n.conns[fd];
      if conn.wake.Some? {
        CompleteTame(n.(conns := n.conns[fd := Filled(conn, bytes)]), remote, fd, conn.wake.value);
      }
    }
  }

  lemma FrameTame(n: Node, fdMax: nat, remote: NodeId, frame: Frame)
    requires Tame(n, remote)
    ensures Tame(HandleFrame(n, fdMax, remote, frame), remote)
  {
    hide HandleConnect, HandleData, Supersede;
    match frame
    case Connect => ArrivalTame(n, fdMax, remote);
    case Data(bytes) => DataTame(n, remote, remote, bytes);
    case Close => SupersedeTame(n, remote, remote);
    case _ =>
  }

  lemma CloseConnectionTame(n: Node, remote: NodeId, fd: nat)
    requires Tame(n, remote)
    ensures Tame(DoCloseConnection(n, fd), remote)
  {
  }

  lemma {:induction false} TombstoneAllTame(n: Node, remote: NodeId, order: seq<nat>)
    requires Tame(n, remote) && forall fd :: fd in order ==> fd in n.conns
    ensures Tame(TombstoneAll(n, order), remote)
    decreases |order|
  {
    hide Tame, Tombstone;
    if order != [] {
      TombstoneTame(n, remote, order[0]);
      TombstoneFrame(n, order[0]);
      TombstoneAllTame(Tombstone(n, order[0]), remote, order[1..]);
    }
  }

  /** Operations other than `connect` and `send` post plain frames only. */
  lemma StepTame(n: Node, fdMax: nat, remote: NodeId, op: Op)
    requires AllTo(n, remote) && (op.OpFrame? ==> op.from == remote) && !op.OpConnect? && !op.OpSend?
    requires op.OpClose? ==> forall fd :: fd in op.order ==> fd in n.conns
    ensures Tame(Step(n, fdMax, op), remote)
  {
    hide DoAccept, DoRecv, DoCloseConnection, TombstoneAll, HandleFrame;
    var m := n.(log := []);
    match op
    case OpAccept(cb) => AcceptTame(m, remote, cb);
    case OpRecv(fd, r) => RecvTame(m, remote, fd, r);
    case OpCloseConnection(fd) => CloseConnectionTame(m, remote, fd);
    case OpClose(order) => TombstoneAllTame(m, remote, order);
    case OpFrame(from, frame) => FrameTame(m, fdMax, remote, frame);
  }

  lemma {:induction false} PlainPosts(log: seq<Output>, to: NodeId)
    requires PlainLog(log, to)
    ensures forall i :: 0 <= i < |Posts(log, to)| ==> Plain(Posts(log, to)[i])
  {
    if log != [] {
      PlainPosts(log[1..], to);
    }
  }

  /** `connect` posts one connect frame after opening, or nothing when there is no free number. */
  lemma ConnectPosts(n: Node, fdMax: nat, remote: NodeId, cb: Callback, frames: seq<Frame>)
    requires AllTo(n, remote)
    ensures var m := Step(n, fdMax, OpConnect(remote, cb));
            && AllTo(m, remote)
            && Split(frames + Posts(m.log, remote)) == (if NewFd(n, fdMax).Found? then Split(frames) + [[]] else Split(frames))
            && (NewFd(n, fdMax).Found? ==> Posts(m.log, remote) != [] && Posts(m.log, remote)[|Posts(m.log, remote)| - 1] == Connect)
  {
    hide NewFd, CreateConn, Split;
    SameNumbers(n, fdMax);
    var m := n.(log := []);
    if NewFd(m, fdMax).Full? {
      assert Posts([ConnectDone(cb, -1)], remote) == [] + Posts([ConnectDone(cb, -1)][1..], remote);
      assert frames + [] == frames;
    } else {
      var p, fd := m.(nextFd := NewFd(m, fdMax).next), NewFd(m, fdMax).fd;
      CreateConnTame(p, remote, fd);
      CreateConnOpens(p, fd, remote);
      var c := CreateConn(p, fd, remote);
      PostsConcat(c.log, [Posted(remote, Connect)], remote);
      assert [Posted(remote, Connect)][1..] == [];
      assert Posts([Posted(remote, Connect)], remote) == [Connect];
      assert Step(n, fdMax, OpConnect(remote, cb)).log == c.log + [Posted(remote, Connect)];
      PlainPosts(c.log, remote);
      SplitPlain(frames, Posts(c.log, remote));
      SplitOne(frames + Posts(c.log, remote), Connect);
      assert frames + (Posts(c.log, remote) + [Connect]) == (frames + Posts(c.log, remote)) + [Connect];
    }
  }

  lemma SameNumbers(n: Node, fdMax: nat)
    ensures NewFd(n.(log := []), fdMax) == NewFd(n, fdMax)
  {
  }

  /** What `send` takes is what it posts. */
  lemma SendPosts(n: Node, fdMax: nat, remote: NodeId, fd: nat, data: Bytes, postOk: bool)
    requires AllTo(n, remote)
    ensures var op := OpSend(fd, data, postOk);
            var m := Step(n, fdMax, op);
            && m.conns == n.conns && AllTo(m, remote)
            && Posts(m.log, remote) == (if TakenBy(n, op) == [] then [] else [Data(TakenBy(n, op))])
            && (TakenBy(n, op) != [] ==> Live(n, fd))
  {
  }

  // ----- which connection is the current one -----

  /** The connection an operation opens, if any. */
  function Opened(n: Node, fdMax: nat, op: Op, m: Node): seq<Id> {
    if Opening(op) && NewFd(n, fdMax).Found? then [IdOf(m, NewFd(n, fdMax).fd)] else []
  }

  /** All connections so far, in order; only the last one can be alive. */
  ghost predicate Latest(n: Node, ids: seq<Id>) {
    && Distinct(ids)
    && (forall k :: 0 <= k < |ids| ==> ids[k].epoch <= Count(n.opens, ids[k].fd))
    && (forall fd :: Live(n, fd) ==> ids != [] && ids[|ids| - 1] == IdOf(n, fd))
  }

  lemma OneAlive(n: Node, fdMax: nat, remote: NodeId)
    requires Inv(n, fdMax) && AllTo(n, remote)
    ensures forall fd, fd' :: Live(n, fd) && Live(n, fd') ==> fd == fd'
  {
  }

  /** An opened connection is alive right after. */
  lemma OpenedAlive(n: Node, fdMax: nat, op: Op)
    requires Inv(n, fdMax) && Opening(op) && NewFd(n, fdMax).Found?
    ensures Live(Step(n, fdMax, op), NewFd(n, fdMax).fd)
  {
    hide NewFd, CreateConn, Inv, SettleAccept, HandleConnect;
    SameNumbers(n, fdMax);
    NewFdBounds(n, fdMax);
    var m := n.(log := []);
    LogKeeps(n, fdMax, []);
    NextKeeps(m, fdMax, NewFd(n, fdMax).next);
    var p := m.(nextFd := NewFd(n, fdMax).next);
    match op
    case OpConnect(remote, cb) => CreateConnKeeps(p, fdMax, NewFd(n, fdMax).fd, remote);
    case OpFrame(remote, _) =>
      CreateConnKeeps(p, fdMax, NewFd(n, fdMax).fd, remote);
      ArrivalOpens(m, fdMax, remote);
  }

  lemma StepLatest(n: Node, fdMax: nat, remote: NodeId, op: Op, ids: seq<Id>)
    requires Inv(n, fdMax) && Allowed(n, op) && Latest(n, ids) && AllTo(n, remote)
    ensures op.OpClose? ==> forall fd :: fd in op.order ==> fd in n.conns
    ensures var m := Step(n, fdMax, op);
            AllTo(m, remote) ==> Latest(m, ids + Opened(n, fdMax, op, m))
  {
    hide Step, NewFd, Inv, AllTo, Allowed, Stays;
    StepKeeps(n, fdMax, op);
    StepOpens(n, fdMax, op);
    var m := Step(n, fdMax, op);
    if AllTo(m, remote) {
      OneAlive(m, fdMax, remote);
      if Opened(n, fdMax, op, m) != [] {
        OpenedAlive(n, fdMax, op);
      } else {
        AliveStays(n, fdMax, op);
        assert ids + [] == ids;
      }
    }
  }

  /** An operation that opens nothing revives nothing. */
  lemma AliveStays(n: Node, fdMax: nat, op: Op)
    requires op.OpClose? ==> forall fd :: fd in op.order ==> fd in n.conns
    ensures var m := Step(n, fdMax, op);
            m.opens == n.opens ==> forall fd :: Live(m, fd) ==> Live(n, fd)
  {
    hide Step;
    StepStays(n, fdMax, op);
  }

  // ----- the connector -----

  /** What the connector posted splits into what `send` took, connection by connection. */
  ghost predicate Posting(out: seq<Frame>, ids: seq<Id>, s: Streams) {
    && |Split(out)| == |ids| + 1 && Split(out)[0] == []
    && (forall k :: 0 <= k < |ids| ==> Split(out)[k + 1] == Get(s.sent, ids[k]))
  }

  ghost predicate ConnectorOk(n: Node, fdMax: nat, out: seq<Frame>, ids: seq<Id>, s: Streams) {
    Inv(n, fdMax) && AllTo(n, ACCEPTOR) && StreamsOk(n, s) && Latest(n, ids) && Posting(out, ids, s)
  }

  /** The connector calls `connect` on the acceptor only, and is never connected to. */
  predicate ByConnector(op: Op) {
    match op
    case OpConnect(remote, _) => remote == ACCEPTOR
    case OpFrame(from, frame) => from == ACCEPTOR && !frame.Connect?
    case _ => true
  }

  lemma SentGrows(out: seq<Frame>, ids: seq<Id>, s: Streams, t: Streams, id: Id, taken: Bytes)
    requires Posting(out, ids, s) && Distinct(ids) && ids != [] && ids[|ids| - 1] == id
    requires forall x :: Get(t.sent, x) == if x == id then Get(s.sent, id) + taken else Get(s.sent, x)
    ensures Posting(out + [Data(taken)], ids, t)
  {
  }

  lemma SentSame(out: seq<Frame>, ids: seq<Id>, s: Streams, t: Streams)
    requires Posting(out, ids, s) && forall x :: Get(t.sent, x) == Get(s.sent, x)
    ensures Posting(out, ids, t)
  {
  }

  lemma ConnectorSends(n: Node, fdMax: nat, op: Op, out: seq<Frame>, ids: seq<Id>, s: Streams)
    requires ConnectorOk(n, fdMax, out, ids, s) && op.OpSend?
    ensures var m := Step(n, fdMax, op);
            AllTo(m, ACCEPTOR) && Posting(out + Posts(m.log, ACCEPTOR), ids, Note(n, op, m, s))
  {
    hide Inv, Split, Step, StreamsOk, TakenBy, Posts, Extend, Posting, Get;
    SendPosts(n, fdMax, ACCEPTOR, op.fd, op.data, op.postOk);
    var m, taken := Step(n, fdMax, op), TakenBy(n, op);
    var t := Note(n, op, m, s);
    if taken == [] {
      assert out + [] == out;
      SentSame(out, ids, s, t);
    } else {
      SentGrows(out, ids, s, t, IdOf(n, op.fd), taken);
    }
  }

  lemma ConnectorConnects(n: Node, fdMax: nat, op: Op, out: seq<Frame>, ids: seq<Id>, s: Streams)
    requires ConnectorOk(n, fdMax, out, ids, s) && op.OpConnect? && op.remote == ACCEPTOR
    ensures var m := Step(n, fdMax, op);
            AllTo(m, ACCEPTOR) && Posting(out + Posts(m.log, ACCEPTOR), ids + Opened(n, fdMax, op, m), Note(n, op, m, s))
  {
    hide Inv, Split, Step, Posts, Extend, NewFd, Exact;
    ConnectPosts(n, fdMax, ACCEPTOR, op.cb, out);
    StepOpens(n, fdMax, op);
  }

  lemma ConnectorStep(n: Node, fdMax: nat, op: Op, out: seq<Frame>, ids: seq<Id>, s: Streams)
    requires ConnectorOk(n, fdMax, out, ids, s) && Allowed(n, op) && ByConnector(op)
    ensures op.OpClose? ==> forall fd :: fd in op.order ==> fd in n.conns
    ensures var m := Step(n, fdMax, op);
            ConnectorOk(m, fdMax, out + Posts(m.log, ACCEPTOR), ids + Opened(n, fdMax, op, m), Note(n, op, m, s))
  {
    hide Inv, Allowed, Split, Step, StreamsOk, Latest, Posts, Note, NewFd;
    StepKeeps(n, fdMax, op);
    StepStreams(n, fdMax, op, s);
    StepLatest(n, fdMax, ACCEPTOR, op, ids);
    if op.OpSend? {
      ConnectorSends(n, fdMax, op, out, ids, s);
      assert ids + [] == ids;
    } else if op.OpConnect? {
      ConnectorConnects(n, fdMax, op, out, ids, s);
    } else {
      StepTame(n, fdMax, ACCEPTOR, op);
      var m := Step(n, fdMax, op);
      PlainPosts(m.log, ACCEPTOR);
      SplitPlain(out, Posts(m.log, ACCEPTOR));
      SentStays(n, op, m, s);
      assert ids + [] == ids;
    }
  }

  lemma SentStays(n: Node, op: Op, m: Node, s: Streams)
    requires !op.OpSend?
    ensures Note(n, op, m, s).sent == s.sent
  {
  }

  // ----- the acceptor -----

  /** What a connection received is a prefix of its run of data, and all of it while it lives. */
  ghost predicate Receiving(n: Node, in_: seq<Frame>, ids: seq<Id>, s: Streams) {
    && |Split(in_)| == |ids| + 1
    && (forall k :: 0 <= k < |ids| ==> Get(s.received, ids[k]) <= Split(in_)[k + 1])
    && (forall fd :: Live(n, fd) ==> Get(s.received, IdOf(n, fd)) == Split(in_)[|ids|])
  }

  ghost predicate AcceptorOk(n: Node, fdMax: nat, in_: seq<Frame>, ids: seq<Id>, s: Streams) {
    Inv(n, fdMax) && AllTo(n, CONNECTOR) && StreamsOk(n, s) && Latest(n, ids) && Receiving(n, in_, ids, s)
  }

  /** The acceptor never connects, and has a free number for every connect frame. */
  ghost predicate ByAcceptor(n: Node, fdMax: nat, op: Op) {
    match op
    case OpConnect(_, _) => false
    case OpFrame(from, frame) => from == CONNECTOR && (frame.Connect? ==> NewFd(n, fdMax).Found?)
    case _ => true
  }

  function Delivered(op: Op): seq<Frame> { if op.OpFrame? then [op.frame] else [] }

  /** A delivered connect frame starts a new run for the connection it opens. */
  lemma AcceptorOpens(n: Node, fdMax: nat, op: Op, in_: seq<Frame>, ids: seq<Id>, s: Streams)
    requires AcceptorOk(n, fdMax, in_, ids, s) && ByAcceptor(n, fdMax, op) && Opening(op)
    requires AllTo(Step(n, fdMax, op), CONNECTOR) && Latest(Step(n, fdMax, op), ids + Opened(n, fdMax, op, Step(n, fdMax, op)))
    ensures var m := Step(n, fdMax, op);
            Receiving(m, in_ + Delivered(op), ids + Opened(n, fdMax, op, m), Note(n, op, m, s))
  {
    hide Inv, Split, Step, Extend, NewFd, Exact;
    SplitOne(in_, Connect);
    StepOpens(n, fdMax, op);
    var m := Step(n, fdMax, op);
    var id := IdOf(m, NewFd(n, fdMax).fd);
    assert Get(s.received, id) == [];
    forall fd | Live(m, fd)
      ensures Get(s.received, IdOf(m, fd)) == []
    {
      assert (ids + [id])[|ids|] == IdOf(m, fd);
    }
  }

  /** What noting does to `received` when data is delivered. */
  lemma DataNotes(n: Node, op: Op, m: Node, s: Streams)
    requires op.OpFrame? && op.frame.Data?
    ensures var t := Note(n, op, m, s);
            if op.from in n.byRemote then t.received == Extend(s.received, IdOf(n, n.byRemote[op.from]), op.frame.bytes)
            else t.received == s.received
  {
    hide Copied, Extend;
  }

  /** Data for the last connection lengthens the last run, and what that connection received. */
  lemma RunGrows(in_: seq<Frame>, ids: seq<Id>, s: Streams, t: Streams, bytes: Bytes, alive: bool)
    requires |Split(in_)| == |ids| + 1 && Distinct(ids) && (alive ==> ids != [])
    requires forall k :: 0 <= k < |ids| ==> Get(s.received, ids[k]) <= Split(in_)[k + 1]
    requires alive ==> Get(s.received, ids[|ids| - 1]) == Split(in_)[|ids|]
    requires forall x :: Get(t.received, x) == if alive && x == ids[|ids| - 1] then Get(s.received, x) + bytes else Get(s.received, x)
    ensures |Split(in_ + [Data(bytes)])| == |ids| + 1
    ensures forall k :: 0 <= k < |ids| ==> Get(t.received, ids[k]) <= Split(in_ + [Data(bytes)])[k + 1]
    ensures alive ==> Get(t.received, ids[|ids| - 1]) == Split(in_ + [Data(bytes)])[|ids|]
  {
    hide Split, Get;
    SplitOne(in_, Data(bytes));
    if ids != [] {
      Longer(Get(s.received, ids[|ids| - 1]), Split(in_)[|ids|], bytes);
    }
  }

  /** Delivered data goes to the connection that is alive, if one is. */
  lemma AcceptorReceives(n: Node, fdMax: nat, op: Op, in_: seq<Frame>, ids: seq<Id>, s: Streams)
    requires AcceptorOk(n, fdMax, in_, ids, s) && ByAcceptor(n, fdMax, op) && op.OpFrame? && op.frame.Data?
    ensures var m := Step(n, fdMax, op);
            Receiving(m, in_ + Delivered(op), ids, Note(n, op, m, s))
  {
    hide Split, Step, StreamsOk, Note, Get, Extend, ReadyOk, NumbersOk, QueuesOk;
    StepOpens(n, fdMax, op);
    AliveStays(n, fdMax, op);
    var m := Step(n, fdMax, op);
    var t := Note(n, op, m, s);
    DataNotes(n, op, m, s);
    if CONNECTOR in n.byRemote {
      var fd := n.byRemote[CONNECTOR];
      assert Live(n, fd);
      OneAlive(n, fdMax, CONNECTOR);
      RunGrows(in_, ids, s, t, op.frame.bytes, true);
    } else {
      NoneAlive(n, CONNECTOR);
      RunGrows(in_, ids, s, t, op.frame.bytes, false);
    }
  }

  lemma NoneAlive(n: Node, remote: NodeId)
    requires Bijection(n) && AllTo(n, remote) && remote !in n.byRemote
    ensures forall fd :: !Live(n, fd)
  {
  }

  lemma Longer(a: Bytes, b: Bytes, more: Bytes)
    requires a <= b
    ensures a <= b + more
  {
  }

  /** Everything else leaves what was received alone. */
  lemma AcceptorWaits(n: Node, fdMax: nat, op: Op, in_: seq<Frame>, ids: seq<Id>, s: Streams)
    requires AcceptorOk(n, fdMax, in_, ids, s) && ByAcceptor(n, fdMax, op) && !Opening(op) && !(op.OpFrame? && op.frame.Data?)
    requires op.OpClose? ==> forall fd :: fd in op.order ==> fd in n.conns
    ensures var m := Step(n, fdMax, op);
            Receiving(m, in_ + Delivered(op), ids, Note(n, op, m, s))
  {
    hide Split, Step, StreamsOk, Copied, Extend, Inv;
    if op.OpFrame? {
      SplitOne(in_, op.frame);
    } else {
      assert in_ + [] == in_;
    }
    StepOpens(n, fdMax, op);
    AliveStays(n, fdMax, op);
    ReceivedStays(n, op, Step(n, fdMax, op), s);
  }

  lemma ReceivedStays(n: Node, op: Op, m: Node, s: Streams)
    requires !(op.OpFrame? && op.frame.Data?)
    ensures forall id :: Get(Note(n, op, m, s).received, id) == Get(s.received, id)
  {
  }

  lemma AcceptorStep(n: Node, fdMax: nat, op: Op, in_: seq<Frame>, ids: seq<Id>, s: Streams)
    requires AcceptorOk(n, fdMax, in_, ids, s) && Allowed(n, op) && ByAcceptor(n, fdMax, op)
    ensures op.OpClose? ==> forall fd :: fd in op.order ==> fd in n.conns
    ensures var m := Step(n, fdMax, op);
            && AcceptorOk(m, fdMax, in_ + Delivered(op), ids + Opened(n, fdMax, op, m), Note(n, op, m, s))
            && (forall i :: 0 <= i < |Posts(m.log, CONNECTOR)| ==> !Posts(m.log, CONNECTOR)[i].Connect?)
  {
    hide Inv, Allowed, Split, Step, StreamsOk, Latest, Posts, Note, NewFd, Receiving;
    StepKeeps(n, fdMax, op);
    StepStreams(n, fdMax, op, s);
    StepLatest(n, fdMax, CONNECTOR, op, ids);
    if op.OpSend? {
      SendPosts(n, fdMax, CONNECTOR, op.fd, op.data, op.postOk);
    } else {
      StepTame(n, fdMax, CONNECTOR, op);
      PlainPosts(Step(n, fdMax, op).log, CONNECTOR);
    }
    if Opening(op) {
      AcceptorOpens(n, fdMax, op, in_, ids, s);
    } else {
      assert ids + [] == ids;
      if op.OpFrame? && op.frame.Data? {
        AcceptorReceives(n, fdMax, op, in_, ids, s);
      } else {
        AcceptorWaits(n, fdMax, op, in_, ids, s);
      }
    }
  }

  // ----- both on the bus -----

  /** Two nodes and the frames under way between them. */
  datatype Bus = Bus(a: Node, b: Node, ab: seq<Frame>, ba: seq<Frame>)

  /** The connector's or the acceptor's Runtime calls, or the oldest frame of a channel arrives. */
  datatype Move = AtConnector(op: Op) | AtAcceptor(op: Op) | ToAcceptor | ToConnector

  function Acting(bus: Bus, move: Move): Op
    requires move.ToAcceptor? ==> bus.ab != []
    requires move.ToConnector? ==> bus.ba != []
  {
    match move
    case AtConnector(op) => op
    case AtAcceptor(op) => op
    case ToAcceptor => OpFrame(CONNECTOR, bus.ab[0])
    case ToConnector => OpFrame(ACCEPTOR, bus.ba[0])
  }

  ghost predicate Can(bus: Bus, move: Move) {
    match move
    case AtConnector(op) => !op.OpFrame? && Allowed(bus.a, op) && (op.OpConnect? ==> op.remote == ACCEPTOR)
    case AtAcceptor(op) => !op.OpFrame? && !op.OpConnect? && Allowed(bus.b, op)
    case ToAcceptor => bus.ab != []
    case ToConnector => bus.ba != []
  }

  /** An arriving connect frame finds a free number. */
  ghost predicate HasNumber(bus: Bus, fdMaxB: nat, move: Move) {
    move.ToAcceptor? && bus.ab != [] && bus.ab[0].Connect? ==> NewFd(bus.b, fdMaxB).Found?
  }

  lemma CloseIsWellFormed(n: Node, op: Op)
    requires Allowed(n, op)
    ensures op.OpClose? ==> forall fd :: fd in op.order ==> fd in n.conns
  {
  }

  ghost function Next(bus: Bus, fdMaxA: nat, fdMaxB: nat, move: Move): Bus
    requires Can(bus, move)
  {
    var op := Acting(bus, move);
    if move.AtConnector? || move.ToConnector? then
      CloseIsWellFormed(bus.a, op);
      var a := Step(bus.a, fdMaxA, op);
      Bus(a, bus.b, bus.ab + Posts(a.log, ACCEPTOR), if move.ToConnector? then bus.ba[1..] else bus.ba)
    else
      CloseIsWellFormed(bus.b, op);
      var b := Step(bus.b, fdMaxB, op);
      Bus(bus.a, b, if move.ToAcceptor? then bus.ab[1..] else bus.ab, bus.ba + Posts(b.log, CONNECTOR))
  }

  /** What has happened on the bus: frames posted by the connector and delivered to the acceptor, the
      connections each side opened in order, and the bytes of each. */
  datatype Trace = Trace(out: seq<Frame>, in_: seq<Frame>, posted: seq<Id>, arrived: seq<Id>, sa: Streams, sb: Streams)

  ghost function Observe(bus: Bus, fdMaxA: nat, fdMaxB: nat, move: Move, t: Trace): Trace
    requires Can(bus, move)
  {
    var op, next := Acting(bus, move), Next(bus, fdMaxA, fdMaxB, move);
    if move.AtConnector? || move.ToConnector? then
      t.(out := t.out + Posts(next.a.log, ACCEPTOR), posted := t.posted + Opened(bus.a, fdMaxA, op, next.a), sa := Note(bus.a, op, next.a, t.sa))
    else
      t.(in_ := t.in_ + Delivered(op), arrived := t.arrived + Opened(bus.b, fdMaxB, op, next.b), sb := Note(bus.b, op, next.b, t.sb))
  }

  ghost predicate BusOk(bus: Bus, fdMaxA: nat, fdMaxB: nat, t: Trace) {
    && ConnectorOk(bus.a, fdMaxA, t.out, t.posted, t.sa)
    && AcceptorOk(bus.b, fdMaxB, t.in_, t.arrived, t.sb)
    && t.out == t.in_ + bus.ab
    && (forall i :: 0 <= i < |bus.ba| ==> !bus.ba[i].Connect?)
  }

  lemma BusStep(bus: Bus, fdMaxA: nat, fdMaxB: nat, move: Move, t: Trace)
    requires BusOk(bus, fdMaxA, fdMaxB, t) && Can(bus, move) && HasNumber(bus, fdMaxB, move)
    ensures BusOk(Next(bus, fdMaxA, fdMaxB, move), fdMaxA, fdMaxB, Observe(bus, fdMaxA, fdMaxB, move, t))
  {
    hide ConnectorOk, AcceptorOk, Step, Posts, Note, Opened, NewFd, Allowed;
    var op := Acting(bus, move);
    if move.AtConnector? || move.ToConnector? {
      FrameAllowed(bus.a, op);
      ConnectorStep(bus.a, fdMaxA, op, t.out, t.posted, t.sa);
      var more := Posts(Step(bus.a, fdMaxA, op).log, ACCEPTOR);
      assert (t.in_ + bus.ab) + more == t.in_ + (bus.ab + more);
    } else {
      FrameAllowed(bus.b, op);
      AcceptorStep(bus.b, fdMaxB, op, t.in_, t.arrived, t.sb);
      if move.ToAcceptor? {
        assert t.in_ + bus.ab == (t.in_ + [bus.ab[0]]) + bus.ab[1..];
      } else {
        assert t.in_ + [] == t.in_;
      }
    }
  }

  lemma FrameAllowed(n: Node, op: Op)
    ensures op.OpFrame? ==> Allowed(n, op)
  {
  }

  ghost predicate Possible(bus: Bus, fdMaxA: nat, fdMaxB: nat, moves: seq<Move>)
    decreases |moves|
  {
    moves == [] || (Can(bus, moves[0]) && Possible(Next(bus, fdMaxA, fdMaxB, moves[0]), fdMaxA, fdMaxB, moves[1..]))
  }

  /** The acceptor never runs out of numbers. */
  ghost predicate Fair(bus: Bus, fdMaxA: nat, fdMaxB: nat, moves: seq<Move>)
    requires Possible(bus, fdMaxA, fdMaxB, moves)
    decreases |moves|
  {
    moves == [] || (HasNumber(bus, fdMaxB, moves[0]) && Fair(Next(bus, fdMaxA, fdMaxB, moves[0]), fdMaxA, fdMaxB, moves[1..]))
  }

  ghost function Traced(bus: Bus, fdMaxA: nat, fdMaxB: nat, moves: seq<Move>, t: Trace): Trace
    requires Possible(bus, fdMaxA, fdMaxB, moves)
    decreases |moves|
  {
    if moves == [] then t
    else Traced(Next(bus, fdMaxA, fdMaxB, moves[0]), fdMaxA, fdMaxB, moves[1..], Observe(bus, fdMaxA, fdMaxB, moves[0], t))
  }

  ghost predicate Isolated(t: Trace) {
    && |t.arrived| <= |t.posted|
    && (forall k :: 0 <= k < |t.arrived| ==> Get(t.sb.read, t.arrived[k]) <= Get(t.sa.sent, t.posted[k]))
  }

  lemma {:induction false} RunIsolates(bus: Bus, fdMaxA: nat, fdMaxB: nat, moves: seq<Move>, t: Trace)
    requires BusOk(bus, fdMaxA, fdMaxB, t) && Possible(bus, fdMaxA, fdMaxB, moves) && Fair(bus, fdMaxA, fdMaxB, moves)
    ensures Isolated(Traced(bus, fdMaxA, fdMaxB, moves, t))
    decreases |moves|
  {
    hide BusOk, Next, Observe, Can, HasNumber, Isolated;
    if moves == [] {
      OkIsolates(bus, fdMaxA, fdMaxB, t);
    } else {
      BusStep(bus, fdMaxA, fdMaxB, moves[0], t);
      RunIsolates(Next(bus, fdMaxA, fdMaxB, moves[0]), fdMaxA, fdMaxB, moves[1..], Observe(bus, fdMaxA, fdMaxB, moves[0], t));
    }
  }

  lemma OkIsolates(bus: Bus, fdMaxA: nat, fdMaxB: nat, t: Trace)
    requires BusOk(bus, fdMaxA, fdMaxB, t)
    ensures Isolated(t)
  {
    hide Inv, Split, Latest;
    SplitGrows(t.in_, bus.ab);
    forall k | 0 <= k < |t.arrived|
      ensures Get(t.sb.read, t.arrived[k]) <= Get(t.sa.sent, t.posted[k])
    {
      assert Get(t.sb.received, t.arrived[k]) <= Split(t.in_)[k + 1] <= Split(t.out)[k + 1];
      assert Get(t.sb.read, t.arrived[k]) <= Get(t.sb.received, t.arrived[k]);
    }
  }

  const Quiet: Bus := Bus(Init(), Init(), [], [])
  const Unseen: Trace := Trace([], [], [], [], Silence, Silence)

  lemma QuietOk(fdMaxA: nat, fdMaxB: nat)
    ensures BusOk(Quiet, fdMaxA, fdMaxB, Unseen)
  {
    hide Inv;
    InitInv(fdMaxA);
    InitInv(fdMaxB);
    assert StreamsOk(Init(), Silence);
    assert Split([]) == [[]];
  }

  /**
    In every interleaving, what the acceptor read on its k-th connection is a prefix of what `send`
    took on the connector's k-th posted connection.
   */
  lemma StreamsStayApart(fdMaxA: nat, fdMaxB: nat, moves: seq<Move>)
    requires Possible(Quiet, fdMaxA, fdMaxB, moves) && Fair(Quiet, fdMaxA, fdMaxB, moves)
    ensures Isolated(Traced(Quiet, fdMaxA, fdMaxB, moves, Unseen))
  {
    hide BusOk, Possible, Fair, Traced, Isolated;
    QuietOk(fdMaxA, fdMaxB);
    RunIsolates(Quiet, fdMaxA, fdMaxB, moves, Unseen);
  }

  // ----- without a free number, streams mix -----

  const AFTER_CONNECT: Node :=
    Node(map[0 := Conn(1, false, [], 0, None, Some(0))], map[1 := 0], [], [], 1, map[0 := 1], map[], map[], [Posted(1, Connect)])

  lemma ConnectsOnce()
    ensures Step(Init(), 2, OpConnect(ACCEPTOR, 0)) == AFTER_CONNECT && Posts(AFTER_CONNECT.log, ACCEPTOR) == [Connect]
    ensures Opened(Init(), 2, OpConnect(ACCEPTOR, 0), AFTER_CONNECT) == [Id(0, 1)]
  {
  }

  lemma ConnectsTwice()
    ensures var op := OpConnect(ACCEPTOR, 1);
            var a := Step(AFTER_CONNECT, 2, op);
            && Posts(a.log, ACCEPTOR) == [Connect] && Opened(AFTER_CONNECT, 2, op, a) == [Id(1, 1)]
            && AllTo(a, ACCEPTOR) && Live(a, 1)
  {
    assert NewFd(AFTER_CONNECT, 2) == Found(1, 2);
    var a := Step(AFTER_CONNECT, 2, OpConnect(ACCEPTOR, 1));
    assert a.log == [ConnectDone(0, -1), Posted(1, Connect)];
    assert a.log[1..] == [Posted(1, Connect)] && a.log[1..][1..] == [];
  }

  /** The connector connects twice, and then sends one byte on its second connection. */
  lemma ConnectorCrosses()
    ensures var a1 := Step(Init(), 2, OpConnect(ACCEPTOR, 0));
            var a2 := Step(a1, 2, OpConnect(ACCEPTOR, 1));
            var a3 := Step(a2, 2, OpSend(1, [7], true));
            && Posts(a1.log, ACCEPTOR) == [Connect] && Posts(a2.log, ACCEPTOR) == [Connect]
            && Posts(a3.log, ACCEPTOR) == [Data([7])]
            && Opened(Init(), 2, OpConnect(ACCEPTOR, 0), a1) == [Id(0, 1)]
            && Opened(a1, 2, OpConnect(ACCEPTOR, 1), a2) == [Id(1, 1)]
            && Note(Init(), OpConnect(ACCEPTOR, 0), a1, Silence) == Silence
            && Note(a1, OpConnect(ACCEPTOR, 1), a2, Silence) == Silence
            && Get(Note(a2, OpSend(1, [7], true), a3, Silence).sent, Id(0, 1)) == []
  {
    hide Step, Posts, Opened;
    ConnectsOnce();
    ConnectsTwice();
    SendsByte(Step(AFTER_CONNECT, 2, OpConnect(ACCEPTOR, 1)));
  }

  lemma SendsByte(n: Node)
    requires AllTo(n, ACCEPTOR) && Live(n, 1)
    ensures Posts(Step(n, 2, OpSend(1, [7], true)).log, ACCEPTOR) == [Data([7])]
  {
    var byte: Bytes := [7];
    assert byte[..Taken(byte)] == byte;
    SendPosts(n, 2, ACCEPTOR, 1, byte, true);
  }

  lemma OpensNothing(n: Node, fdMax: nat, op: Op, m: Node)
    requires !Opening(op)
    ensures Opened(n, fdMax, op, m) == []
  {
  }

  const BUSY: Node := Node(map[0 := Conn(0, false, [], 0, None, None)], map[0 := 0], [0], [], 1, map[0 := 1], map[], map[], [])

  lemma AcceptsOnce()
    ensures Step(Init(), 1, OpFrame(CONNECTOR, Connect)) == BUSY && Step(BUSY, 1, OpFrame(CONNECTOR, Connect)) == BUSY
    ensures Opened(Init(), 1, OpFrame(CONNECTOR, Connect), BUSY) == [Id(0, 1)]
    ensures Opened(BUSY, 1, OpFrame(CONNECTOR, Connect), BUSY) == []
  {
    assert NewFd(Init(), 1) == Found(0, 1);
    assert NewFd(BUSY, 1) == Full(1);
  }

  lemma ReadsByte()
    ensures var b3 := Step(BUSY, 1, OpFrame(CONNECTOR, Data([7])));
            && IdOf(BUSY, 0) == IdOf(b3, 0) == Id(0, 1)
            && Copied(b3.log) == [] && Copied(Step(b3, 1, OpRecv(0, Recv(1, 2))).log) == [7]
  {
    var conn := BUSY.conns[0];
    assert [] + [[7]] == [[7 as bv8]];
    assert Filled(conn, [7]) == Conn(0, false, [[7]], 1, None, None);
    assert HandleData(BUSY, 0, [7]) == BUSY.(conns := BUSY.conns[0 := Filled(conn, [7])]);
    var b3 := Step(BUSY, 1, OpFrame(CONNECTOR, Data([7])));
    var b4 := Step(b3, 1, OpRecv(0, Recv(1, 2)));
    assert Drain([[7]], 1) == Drained([[7]], [], 1);
    assert [[7 as bv8]][1..] == [];
    assert b4.log == [Wrote(2, [7]), RecvDone(2, true)];
    CopiedConcat([Wrote(2, [7])], [RecvDone(2, true)]);
  }

  /** An acceptor with one number takes the first connect, drops the second, and reads the byte. */
  lemma AcceptorCrosses()
    ensures var b1 := Step(Init(), 1, OpFrame(CONNECTOR, Connect));
            var b2 := Step(b1, 1, OpFrame(CONNECTOR, Connect));
            var b3 := Step(b2, 1, OpFrame(CONNECTOR, Data([7])));
            var b4 := Step(b3, 1, OpRecv(0, Recv(1, 2)));
            && Opened(Init(), 1, OpFrame(CONNECTOR, Connect), b1) == [Id(0, 1)]
            && Opened(b1, 1, OpFrame(CONNECTOR, Connect), b2) == []
            && Note(Init(), OpFrame(CONNECTOR, Connect), b1, Silence) == Silence
            && Note(b1, OpFrame(CONNECTOR, Connect), b2, Silence) == Silence
            && var s := Note(b2, OpFrame(CONNECTOR, Data([7])), b3, Silence);
            Get(Note(b3, OpRecv(0, Recv(1, 2)), b4, s).read, Id(0, 1)) == [7]
  {
    hide Step, Opened, Copied;
    AcceptsOnce();
    ReadsByte();
  }

  lemma RunNone(bus: Bus, fdMaxA: nat, fdMaxB: nat, t: Trace)
    ensures Possible(bus, fdMaxA, fdMaxB, []) && Traced(bus, fdMaxA, fdMaxB, [], t) == t
  {
  }

  lemma RunOne(bus: Bus, fdMaxA: nat, fdMaxB: nat, move: Move, rest: seq<Move>, t: Trace)
    requires Can(bus, move) && Possible(Next(bus, fdMaxA, fdMaxB, move), fdMaxA, fdMaxB, rest)
    ensures Possible(bus, fdMaxA, fdMaxB, [move] + rest)
    ensures Traced(bus, fdMaxA, fdMaxB, [move] + rest, t) ==
            Traced(Next(bus, fdMaxA, fdMaxB, move), fdMaxA, fdMaxB, rest, Observe(bus, fdMaxA, fdMaxB, move, t))
  {
  }

  /**
    The free number matters: once the acceptor drops a connect frame, what the connector sends on its
    second connection is read on the acceptor's first.
   */
  lemma StreamsMixWithoutNumbers()
    ensures exists moves :: Possible(Quiet, 2, 1, moves) && !Isolated(Traced(Quiet, 2, 1, moves, Unseen))
  {
    hide Step, Note, Posts, Opened, Isolated, Possible, Traced, Get;
    ConnectorCrosses();
    AcceptorCrosses();
    var c1, c2, c3 := OpConnect(ACCEPTOR, 0), OpConnect(ACCEPTOR, 1), OpSend(1, [7], true);
    var r := OpRecv(0, Recv(1, 2));
    var a1 := Step(Init(), 2, c1);
    var a2 := Step(a1, 2, c2);
    var a3 := Step(a2, 2, c3);
    OpensNothing(a2, 2, c3, a3);
    var b2 := Step(Step(Init(), 1, OpFrame(CONNECTOR, Connect)), 1, OpFrame(CONNECTOR, Connect));
    var b3 := Step(b2, 1, OpFrame(CONNECTOR, Data([7])));
    OpensNothing(b2, 1, OpFrame(CONNECTOR, Data([7])), b3);
    OpensNothing(b3, 1, r, Step(b3, 1, r));
    var s0 := Next(Quiet, 2, 1, AtConnector(c1));
    var s1 := Next(s0, 2, 1, ToAcceptor);
    var s2 := Next(s1, 2, 1, AtConnector(c2));
    var s3 := Next(s2, 2, 1, ToAcceptor);
    var s4 := Next(s3, 2, 1, AtConnector(c3));
    var s5 := Next(s4, 2, 1, ToAcceptor);
    var t0 := Observe(Quiet, 2, 1, AtConnector(c1), Unseen);
    var t1 := Observe(s0, 2, 1, ToAcceptor, t0);
    var t2 := Observe(s1, 2, 1, AtConnector(c2), t1);
    var t3 := Observe(s2, 2, 1, ToAcceptor, t2);
    var t4 := Observe(s3, 2, 1, AtConnector(c3), t3);
    var t5 := Observe(s4, 2, 1, ToAcceptor, t4);
    var t6 := Observe(s5, 2, 1, AtAcceptor(r), t5);
    var m6 := [AtAcceptor(r)] + [];
    var m5 := [ToAcceptor] + m6;
    var m4 := [AtConnector(c3)] + m5;
    var m3 := [ToAcceptor] + m4;
    var m2 := [AtConnector(c2)] + m3;
    var m1 := [ToAcceptor] + m2;
    var m0 := [AtConnector(c1)] + m1;
    RunNone(Next(s5, 2, 1, AtAcceptor(r)), 2, 1, t6);
    RunOne(s5, 2, 1, AtAcceptor(r), [], t5);
    RunOne(s4, 2, 1, ToAcceptor, m6, t4);
    RunOne(s3, 2, 1, AtConnector(c3), m5, t3);
    RunOne(s2, 2, 1, ToAcceptor, m4, t2);
    RunOne(s1, 2, 1, AtConnector(c2), m3, t1);
    RunOne(s0, 2, 1, ToAcceptor, m2, t0);
    RunOne(Quiet, 2, 1, AtConnector(c1), m1, Unseen);
    assert Traced(Quiet, 2, 1, m0, Unseen) == t6;
    assert t6.arrived == [Id(0, 1)] && t6.posted == [Id(0, 1), Id(1, 1)];
    assert Get(t6.sa.sent, Id(0, 1)) == [] && Get(t6.sb.read, Id(0, 1)) == [7];
    NotIsolated(t6);
  }

  lemma NotIsolated(t: Trace)
    requires t.arrived == [Id(0, 1)] && t.posted == [Id(0, 1), Id(1, 1)]
    requires Get(t.sa.sent, Id(0, 1)) == [] && Get(t.sb.read, Id(0, 1)) == [7]
    ensures !Isolated(t)
  {
    assert t.arrived[0] == Id(0, 1) && t.posted[0] == Id(0, 1);
    assert !(Get(t.sb.read, t.arrived[0]) <= Get(t.sa.sent, t.posted[0]));
  }
}
