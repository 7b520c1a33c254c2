/** Bytes per connection: nothing that reached a live connection is lost, repeated or reordered. */
module PeerStreams {
  import opened Arith
  import opened Option
  import opened PeerModel
  import opened PeerInvariant
  import opened PeerAccept

  /** Bytes taken by `send`, bytes that arrived while alive, and bytes read, per connection. */
  datatype Streams = Streams(sent: map<Id, Bytes>, received: map<Id, Bytes>, read: map<Id, Bytes>)

  function Get(m: map<Id, Bytes>, id: Id): Bytes { if id in m then m[id] else [] }

  function Extend(m: map<Id, Bytes>, id: Id, bytes: Bytes): (m': map<Id, Bytes>)
    ensures forall x :: Get(m', x) == if x == id then Get(m, id) + bytes else Get(m, x)
  {
    m[id := Get(m, id) + bytes]
  }

  /** The bytes an operation copied out to a reader. */
  function Copied(log: seq<Output>): Bytes {
    if log == [] then [] else (if log[0].Wrote? then log[0].bytes else []) + Copied(log[1..])
  }

  function Arrived(n: Node, op: Op): Bytes {
    match op
    case OpFrame(from, Data(bytes)) => if from in n.byRemote then bytes else []
    case _ => []
  }

  /** What a `send` call took. */
  function TakenBy(n: Node, op: Op): Bytes {
    match op
    case OpSend(fd, data, postOk) => if SendResult(n, fd, data, postOk) > 0 then data[..Taken(data)] else []
    case _ => []
  }

  function Note(n: Node, op: Op, m: Node, s: Streams): Streams {
    match op
    case OpSend(fd, _, _) => s.(sent := Extend(s.sent, IdOf(n, fd), TakenBy(n, op)))
    case _ =>
      match Touched(n, op)
      case None => s
      case Some(fd) =>
        s.(received := Extend(s.received, IdOf(n, fd), Arrived(n, op)),
           read := Extend(s.read, IdOf(n, fd), Copied(m.log)))
  }

  ghost predicate OldOnly(n: Node, m: map<Id, Bytes>) {
    forall id: Id :: id.epoch > Count(n.opens, id.fd) ==> Get(m, id) == []
  }

  /** While a connection lives, what was read and what is queued is exactly what arrived. */
  ghost predicate Exact(n: Node, s: Streams) {
    forall fd :: Live(n, fd) ==> Get(s.received, IdOf(n, fd)) == Get(s.read, IdOf(n, fd)) + Flat(n.conns[fd].queue)
  }

  ghost predicate StreamsOk(n: Node, s: Streams) {
    && Exact(n, s)
    && (forall id: Id :: Get(s.read, id) <= Get(s.received, id))
    && OldOnly(n, s.sent) && OldOnly(n, s.received) && OldOnly(n, s.read)
  }

  lemma {:induction false} CopiedConcat(a: seq<Output>, b: seq<Output>)
    ensures Copied(a + b) == Copied(a) + Copied(b)
  {
    if a == [] {
      assert a + b == b;
    } else {
      assert (a + b)[1..] == a[1..] + b;
      CopiedConcat(a[1..], b);
    }
  }

  lemma {:induction false} CopiedWrites(cb: Callback, pieces: seq<Bytes>)
    ensures Copied(Writes(cb, pieces)) == Flat(pieces)
  {
    if pieces != [] {
      var rest := Writes(cb, pieces[1..]);
      assert ([Wrote(cb, pieces[0])] + rest)[1..] == rest;
      CopiedWrites(cb, pieces[1..]);
    }
  }

  lemma {:induction false} CopiedNothing(log: seq<Output>)
    requires forall i :: 0 <= i < |log| ==> !log[i].Wrote?
    ensures Copied(log) == []
  {
    if log != [] {
      CopiedNothing(log[1..]);
    }
  }

  lemma CompleteCopies(n: Node, fd: nat, r: Recv)
    requires fd in n.conns && n.log == []
    ensures Copied(Complete(n, fd, r).log) == Flat(Drain(n.conns[fd].queue, r.len).pieces)
  {
    hide Drain, Writes, Flat;
    var pieces := Drain(n.conns[fd].queue, r.len).pieces;
    var done := [RecvDone(r.cb, true)];
    CopiedConcat(Writes(r.cb, pieces), done);
    CopiedWrites(r.cb, pieces);
    CopiedNothing(done);
    assert Complete(n, fd, r).log == Writes(r.cb, pieces) + done;
  }

  // ----- one connection's queue over one operation -----

  /** Reading moves bytes from the queue to the reader. */
  lemma ReadMoves(n: Node, fdMax: nat, fd: nat, r: Recv)
    requires Inv(n, fdMax) && r.len > 0 && n.log == []
    ensures var m := DoRecv(n, fd, r);
            && (Live(n, fd) ==> Live(m, fd) && Copied(m.log) + Flat(m.conns[fd].queue) == Flat(n.conns[fd].queue))
            && (!Live(n, fd) ==> Copied(m.log) == [])
  {
    hide Drain, Writes;
    if Live(n, fd) {
      DrainFacts(n.conns[fd].queue, r.len);
      CompleteCopies(n, fd, r);
    }
  }

  lemma FilledFlat(conn: Conn, bytes: Bytes)
    ensures Flat(Filled(conn, bytes).queue) == Flat(conn.queue) + bytes
  {
    FlatAppend(conn.queue, bytes);
  }

  lemma FilledPieces(conn: Conn, bytes: Bytes)
    requires QueueOk(conn) && bytes != []
    ensures forall i :: 0 <= i < |Filled(conn, bytes).queue| ==> Filled(conn, bytes).queue[i] != []
  {
  }

  /** Arriving data goes behind the queue, and a parked reader takes from its front. */
  lemma DataMoves(n: Node, fdMax: nat, from: NodeId, bytes: Bytes)
    requires Inv(n, fdMax) && n.log == [] && from in n.byRemote
    ensures var m, fd := HandleData(n, from, bytes), n.byRemote[from];
            Live(n, fd) && Live(m, fd) && Copied(m.log) + Flat(m.conns[fd].queue) == Flat(n.conns[fd].queue) + bytes
  {
    hide Drain, Writes, Filled;
    var fd := n.byRemote[from];
    assert Live(n, fd) && QueueOk(n.conns[fd]);
    var conn := n.conns[fd];
    if bytes != [] {
      FilledFlat(conn, bytes);
      FilledPieces(conn, bytes);
      FilledOk(conn, bytes);
      if conn.wake.Some? {
        var p := n.(conns := n.conns[fd := Filled(conn, bytes)]);
        DrainFacts(p.conns[fd].queue, conn.wake.value.len);
        CompleteCopies(p, fd, conn.wake.value);
      }
    }
  }

  /** The touched connection's account stays balanced. */
  lemma TouchedMoves(n: Node, fdMax: nat, op: Op, fd: nat)
    requires Inv(n, fdMax) && Allowed(n, op) && n.log == [] && Touched(n, op) == Some(fd)
    requires op.OpClose? ==> forall x :: x in op.order ==> x in n.conns
    ensures var m := Step(n, fdMax, op);
            && (Live(n, fd) ==> Live(m, fd) && Copied(m.log) + Flat(m.conns[fd].queue) == Flat(n.conns[fd].queue) + Arrived(n, op))
            && (!Live(n, fd) ==> Copied(m.log) == [] && Arrived(n, op) == [])
            && Count(m.opens, fd) == Count(n.opens, fd)
  {
    hide Inv, DoRecv, HandleData, Copied, Flat, NewFd;
    StepOpens(n, fdMax, op);
    match op
    case OpRecv(_, r) => ReadMoves(n, fdMax, fd, r);
    case OpFrame(from, frame) => DataMoves(n, fdMax, from, frame.bytes);
    case _ =>
  }

  lemma StepStreams(n: Node, fdMax: nat, op: Op, s: Streams)
    requires Inv(n, fdMax) && Allowed(n, op) && StreamsOk(n, s)
    ensures op.OpClose? ==> forall fd :: fd in op.order ==> fd in n.conns
    ensures StreamsOk(Step(n, fdMax, op), Note(n, op, Step(n, fdMax, op), s))
  {
    hide Inv, Step, Allowed, Copied, Flat, Extend, Note, NewFd, TakenBy, Arrived, Touched;
    StepKeeps(n, fdMax, op);
    StepIgnoresLog(n, fdMax, op);
    LogKeeps(n, fdMax, []);
    AllowedIgnoresLog(n, op);
    StepStays(n, fdMax, op);
    StepOpens(n, fdMax, op);
    NoteFacts(n, fdMax, op, Step(n, fdMax, op), s);
    NoteOld(n, fdMax, op, s);
  }

  lemma NoteGets(n: Node, op: Op, m: Node, s: Streams)
    ensures var t := Note(n, op, m, s);
            forall id: Id ::
              if Touched(n, op).Some? && id == IdOf(n, Touched(n, op).value)
              then Get(t.received, id) == Get(s.received, id) + Arrived(n, op) && Get(t.read, id) == Get(s.read, id) + Copied(m.log)
              else Get(t.received, id) == Get(s.received, id) && Get(t.read, id) == Get(s.read, id)
  {
    hide Copied, Arrived, TakenBy;
  }

  /** What noting does to the account of the touched connection. */
  lemma NoteTouched(n: Node, fdMax: nat, op: Op, m: Node, s: Streams, fd: nat)
    requires Inv(n, fdMax) && Allowed(n, op) && StreamsOk(n, s) && Touched(n, op) == Some(fd)
    requires op.OpClose? ==> forall x :: x in op.order ==> x in n.conns
    requires m == Step(n, fdMax, op)
    ensures var t, id := Note(n, op, m, s), IdOf(n, fd);
            && Get(t.read, id) <= Get(t.received, id) && IdOf(m, fd) == id
            && (Live(n, fd) ==> Live(m, fd) && Get(t.received, id) == Get(t.read, id) + Flat(m.conns[fd].queue))
  {
    hide Inv, Step, Allowed, Copied, NewFd, Note, Arrived, Get, Touched, OldOnly, Flat;
    LogKeeps(n, fdMax, []);
    AllowedIgnoresLog(n, op);
    StepIgnoresLog(n, fdMax, op);
    TouchedIgnoresLog(n, op);
    NoteGets(n, op, m, s);
    TouchedMoves(n.(log := []), fdMax, op, fd);
    Balanced(Get(s.received, IdOf(n, fd)), Get(s.read, IdOf(n, fd)), Live(n, fd), Arrived(n, op), Copied(m.log),
             if Live(n, fd) then Flat(n.conns[fd].queue) else [], if Live(m, fd) then Flat(m.conns[fd].queue) else []);
  }

  /** What noting changes, in terms of the touched connection only. */
  lemma NoteFacts(n: Node, fdMax: nat, op: Op, m: Node, s: Streams)
    requires Inv(n, fdMax) && Allowed(n, op) && StreamsOk(n, s)
    requires op.OpClose? ==> forall x :: x in op.order ==> x in n.conns
    requires m == Step(n, fdMax, op) && Stays(n, m, Touched(n, op))
    ensures Exact(m, Note(n, op, m, s))
    ensures forall id: Id :: Get(Note(n, op, m, s).read, id) <= Get(Note(n, op, m, s).received, id)
  {
    hide Inv, Step, Allowed, Copied, NewFd, Note, Arrived, Get, Touched, OldOnly, Flat;
    var t := Note(n, op, m, s);
    NoteGets(n, op, m, s);
    if Touched(n, op).Some? {
      NoteTouched(n, fdMax, op, m, s, Touched(n, op).value);
    }
    forall fd | Live(m, fd)
      ensures Get(t.received, IdOf(m, fd)) == Get(t.read, IdOf(m, fd)) + Flat(m.conns[fd].queue)
    {
      if Count(m.opens, fd) != Count(n.opens, fd) {
        FreshIsEmpty(n, fdMax, op, fd, s);
        OpeningTouchesNothing(n, op);
        EmptyIsFlat(m.conns[fd].queue);
      } else if Touched(n, op) != Some(fd) {
        assert Live(n, fd);
      }
    }
  }

  lemma EmptyIsFlat(queue: seq<Bytes>)
    ensures queue == [] ==> Flat(queue) == []
  {
  }

  lemma OpeningTouchesNothing(n: Node, op: Op)
    ensures Opening(op) ==> Touched(n, op) == None
  {
  }

  lemma FreshIsEmpty(n: Node, fdMax: nat, op: Op, fd: nat, s: Streams)
    requires op.OpClose? ==> forall x :: x in op.order ==> x in n.conns
    requires StreamsOk(n, s) && Count(Step(n, fdMax, op).opens, fd) != Count(n.opens, fd)
    ensures var id := IdOf(Step(n, fdMax, op), fd);
            Get(s.received, id) == [] && Get(s.read, id) == [] && id != IdOf(n, fd)
    ensures Opening(op)
  {
    hide Step, NewFd;
    StepOpens(n, fdMax, op);
  }

  /** Moving bytes from what arrived to what was read keeps the account of one connection. */
  lemma Balanced(received: Bytes, read: Bytes, live: bool, arrived: Bytes, copied: Bytes, before: Bytes, after: Bytes)
    requires read <= received && (live ==> received == read + before && copied + after == before + arrived)
    requires !live ==> copied == [] && arrived == []
    ensures read + copied <= received + arrived
    ensures live ==> received + arrived == (read + copied) + after
  {
    if live {
      assert (read + before) + arrived == read + (before + arrived);
      assert read + (copied + after) == (read + copied) + after;
    }
  }

  lemma TouchedIgnoresLog(n: Node, op: Op)
    ensures Touched(n.(log := []), op) == Touched(n, op) && Arrived(n.(log := []), op) == Arrived(n, op)
  {
  }

  lemma NoteSent(n: Node, op: Op, m: Node, s: Streams)
    ensures forall id: Id :: Get(Note(n, op, m, s).sent, id) ==
              if op.OpSend? && id == IdOf(n, op.fd) then Get(s.sent, id) + TakenBy(n, op) else Get(s.sent, id)
  {
    hide Copied, Arrived, TakenBy;
  }

  /** Nothing was noted yet for connections that have not been opened. */
  lemma NoteOld(n: Node, fdMax: nat, op: Op, s: Streams)
    requires op.OpClose? ==> forall x :: x in op.order ==> x in n.conns
    requires StreamsOk(n, s)
    ensures var m := Step(n, fdMax, op);
            var t := Note(n, op, m, s);
            OldOnly(m, t.sent) && OldOnly(m, t.received) && OldOnly(m, t.read)
  {
    hide Step, Copied, NewFd, TakenBy, Arrived, Note, Get, Exact, Touched;
    var m := Step(n, fdMax, op);
    StepOpens(n, fdMax, op);
    assert forall fd: nat :: Count(n.opens, fd) <= Count(m.opens, fd);
    NoteSent(n, op, m, s);
    NoteGets(n, op, m, s);
  }

  ghost function StreamsOf(n: Node, fdMax: nat, ops: seq<Op>, s: Streams): Streams
    requires Inv(n, fdMax) && RunAllowed(n, fdMax, ops)
    decreases |ops|
  {
    if ops == [] then s
    else
      StepKeeps(n, fdMax, ops[0]);
      var m := Step(n, fdMax, ops[0]);
      StreamsOf(m, fdMax, ops[1..], Note(n, ops[0], m, s))
  }

  lemma {:induction false} RunStreams(n: Node, fdMax: nat, ops: seq<Op>, s: Streams)
    requires Inv(n, fdMax) && RunAllowed(n, fdMax, ops) && StreamsOk(n, s)
    ensures StreamsOk(After(n, fdMax, ops), StreamsOf(n, fdMax, ops, s))
    decreases |ops|
  {
    hide Inv, StreamsOk, Step, Note, Allowed;
    if ops != [] {
      StepKeeps(n, fdMax, ops[0]);
      StepStreams(n, fdMax, ops[0], s);
      var m := Step(n, fdMax, ops[0]);
      RunStreams(m, fdMax, ops[1..], Note(n, ops[0], m, s));
    }
  }

  const Silence: Streams := Streams(map[], map[], map[])

  /**
    For every run and every connection it opened: what was read is a prefix of what arrived while
    it lived; while it lives the rest is queued, in order and counted exactly; and a parked read
    means there is nothing queued on a connection that is alive.
   */
  lemma NothingIsLost(fdMax: nat, ops: seq<Op>)
    requires Inv(Init(), fdMax) && RunAllowed(Init(), fdMax, ops)
    ensures var n, s := After(Init(), fdMax, ops), StreamsOf(Init(), fdMax, ops, Silence);
            && (forall id: Id :: Get(s.read, id) <= Get(s.received, id))
            && (forall fd :: Live(n, fd) ==>
                  Get(s.received, IdOf(n, fd)) == Get(s.read, IdOf(n, fd)) + Flat(n.conns[fd].queue)
                  && n.conns[fd].queuedBytes == |Flat(n.conns[fd].queue)|)
            && (forall fd :: fd in n.conns && n.conns[fd].wake.Some? ==> Live(n, fd) && n.conns[fd].queue == [])
  {
    hide Step, Note, Allowed;
    assert StreamsOk(Init(), Silence);
    RunStreams(Init(), fdMax, ops, Silence);
    RunKeeps(Init(), fdMax, ops);
    var n := After(Init(), fdMax, ops);
    assert forall fd :: fd in n.conns ==> QueueOk(n.conns[fd]);
  }

  // ----- what callers are told -----

  /** `send` takes all of a short piece and a full chunk of a long one, and posts exactly that. */
  lemma SendTakes(n: Node, fdMax: nat, fd: nat, data: Bytes)
    requires Live(n, fd)
    ensures var taken := SendResult(n, fd, data, true);
            && 0 <= taken <= |data| && (taken == |data| || taken == SEND_CHUNK_BYTES) && (data != [] ==> taken > 0)
            && Step(n, fdMax, OpSend(fd, data, true)).log ==
               if data == [] then [] else [Posted(n.conns[fd].remote, Data(data[..taken]))]
  {
  }

  /** Some callback in a log was told that bytes came. */
  ghost predicate ToldBytes(log: seq<Output>) { exists i :: 0 <= i < |log| && log[i].RecvDone? && log[i].ok }

  ghost predicate OnlyFalse(log: seq<Output>) {
    forall i :: 0 <= i < |log| ==>
      !log[i].Wrote? && (log[i].RecvDone? ==> !log[i].ok) && (log[i].ConnectDone? ==> log[i].fd == -1)
  }

  lemma {:induction false} OnlyFalseCopies(log: seq<Output>)
    requires OnlyFalse(log)
    ensures Copied(log) == [] && !ToldBytes(log)
  {
    CopiedNothing(log);
  }

  lemma CompleteTells(n: Node, fd: nat, r: Recv)
    requires fd in n.conns && n.log == [] && r.len > 0
    requires n.conns[fd].queue != [] && forall i :: 0 <= i < |n.conns[fd].queue| ==> n.conns[fd].queue[i] != []
    ensures ToldBytes(Complete(n, fd, r).log) && Copied(Complete(n, fd, r).log) != []
  {
    hide Drain, Writes, Flat;
    CompleteCopies(n, fd, r);
    DrainFacts(n.conns[fd].queue, r.len);
    FlatIsNotEmpty(n.conns[fd].queue);
    var log := Complete(n, fd, r).log;
    assert log[|log| - 1] == RecvDone(r.cb, true);
  }

  lemma FlatIsNotEmpty(queue: seq<Bytes>)
    requires queue != [] && queue[0] != []
    ensures Flat(queue) != []
  {
  }

  lemma RecvTells(n: Node, fdMax: nat, fd: nat, r: Recv)
    requires Inv(n, fdMax) && n.log == [] && r.len > 0
    ensures ToldBytes(DoRecv(n, fd, r).log) <==> Copied(DoRecv(n, fd, r).log) != []
  {
    hide Drain, Complete, Copied, ToldBytes;
    if Live(n, fd) {
      assert QueueOk(n.conns[fd]);
      DrainTakes(n.conns[fd], r.len);
      if n.conns[fd].queue != [] {
        CompleteTells(n, fd, r);
      } else {
        OnlyFalseCopies(DoRecv(n, fd, r).log);
      }
    } else {
      OnlyFalseCopies(DoRecv(n, fd, r).log);
    }
  }

  lemma DataTells(n: Node, fdMax: nat, from: NodeId, bytes: Bytes)
    requires Inv(n, fdMax) && n.log == []
    ensures ToldBytes(HandleData(n, from, bytes).log) <==> Copied(HandleData(n, from, bytes).log) != []
  {
    hide Drain, Complete, Copied, ToldBytes, Flat, Filled;
    var m := HandleData(n, from, bytes);
    if from in n.byRemote && bytes != [] && n.conns[n.byRemote[from]].wake.Some? {
      var fd := n.byRemote[from];
      var conn := n.conns[fd];
      assert Live(n, fd) && QueueOk(conn);
      FilledPieces(conn, bytes);
      FilledIsNotEmpty(conn, bytes);
      CompleteTells(n.(conns := n.conns[fd := Filled(conn, bytes)]), fd, conn.wake.value);
    } else {
      OnlyFalseCopies(m.log);
    }
  }

  lemma FilledIsNotEmpty(conn: Conn, bytes: Bytes)
    ensures Filled(conn, bytes).queue != []
  {
  }

  predicate BringsData(op: Op) { op.OpFrame? && op.frame.Data? }
  predicate BringsAccept(op: Op) { op.OpFrame? && op.frame.Accepted? }

  /** Operations that neither read nor bring data or an accept tell readers and connectors of failure only. */
  lemma OthersTellFalse(n: Node, fdMax: nat, op: Op)
    requires Inv(n, fdMax) && Allowed(n, op) && n.log == [] && !op.OpRecv? && !BringsData(op) && !BringsAccept(op)
    ensures op.OpClose? ==> forall fd :: fd in op.order ==> fd in n.conns
    ensures OnlyFalse(Step(n, fdMax, op).log)
  {
    hide Inv, Allowed, NewFd, DoAccept, TombstoneAll, CreateConn, Supersede, HandleConnect, DoCloseConnection;
    StepKeeps(n, fdMax, op);
    match op
    case OpAccept(cb) => AcceptFalse(n, cb);
    case OpClose(order) => TombstoneAllFalse(n, order);
    case OpConnect(remote, cb) =>
      if NewFd(n, fdMax).Found? {
        CreateConnFalse(n.(nextFd := NewFd(n, fdMax).next), NewFd(n, fdMax).fd, remote);
      }
    case OpCloseConnection(fd) => CloseFalse(n, fd);
    case OpFrame(from, frame) =>
      if frame.Connect? {
        ArrivalFalse(n, fdMax, from);
      } else if frame.Close? {
        SupersedeFalse(n, from);
      }
    case _ =>
  }

  lemma TombstoneFalse(n: Node, fd: nat)
    requires fd in n.conns && OnlyFalse(n.log)
    ensures OnlyFalse(Tombstone(n, fd).log)
  {
  }

  lemma SupersedeFalse(n: Node, remote: NodeId)
    requires OnlyFalse(n.log)
    ensures OnlyFalse(Supersede(n, remote).log)
  {
    hide Tombstone;
    if remote in n.byRemote && n.byRemote[remote] in n.conns {
      TombstoneFalse(n, n.byRemote[remote]);
    }
  }

  lemma CreateConnFalse(n: Node, fd: nat, remote: NodeId)
    requires OnlyFalse(n.log)
    ensures OnlyFalse(CreateConn(n, fd, remote).log)
  {
    hide Supersede;
    SupersedeFalse(n, remote);
  }

  lemma ArrivalFalse(n: Node, fdMax: nat, remote: NodeId)
    requires OnlyFalse(n.log)
    ensures OnlyFalse(HandleConnect(n, fdMax, remote).log)
  {
    hide CreateConn, NewFd;
    if NewFd(n, fdMax).Found? {
      CreateConnFalse(n.(nextFd := NewFd(n, fdMax).next), NewFd(n, fdMax).fd, remote);
    }
  }

  lemma CloseFalse(n: Node, fd: nat)
    requires OnlyFalse(n.log)
    ensures OnlyFalse(DoCloseConnection(n, fd).log)
  {
    hide Tombstone;
    if fd in n.conns {
      TombstoneFalse(n.(log := n.log + [Posted(n.conns[fd].remote, Close)]), fd);
    }
  }

  lemma {:induction false} AcceptFalse(n: Node, cb: Callback)
    requires OnlyFalse(n.log)
    ensures OnlyFalse(DoAccept(n, cb).log)
    decreases |n.readyFds|
  {
    if n.readyFds != [] {
      AcceptFalse(n.(readyFds := n.readyFds[1..]), cb);
    }
  }

  lemma {:induction false} TombstoneAllFalse(n: Node, order: seq<nat>)
    requires OnlyFalse(n.log) && forall fd :: fd in order ==> fd in n.conns
    ensures OnlyFalse(TombstoneAll(n, order).log)
    decreases |order|
  {
    hide Tombstone, OnlyFalse;
    if order != [] {
      TombstoneFalse(n, order[0]);
      TombstoneFrame(n, order[0]);
      TombstoneAllFalse(Tombstone(n, order[0]), order[1..]);
    }
  }

  /** A reader is told that bytes came exactly when bytes were copied to it: success never means an empty read. */
  lemma SuccessMeansBytes(n: Node, fdMax: nat, op: Op)
    requires Inv(n, fdMax) && Allowed(n, op)
    ensures op.OpClose? ==> forall fd :: fd in op.order ==> fd in n.conns
    ensures ToldBytes(Step(n, fdMax, op).log) <==> Copied(Step(n, fdMax, op).log) != []
  {
    hide Inv, Copied, ToldBytes, DoRecv, HandleData, OnlyFalse;
    StepKeeps(n, fdMax, op);
    LogKeeps(n, fdMax, []);
    AllowedIgnoresLog(n, op);
    StepIgnoresLog(n, fdMax, op);
    var k := n.(log := []);
    if op.OpRecv? {
      RecvTells(k, fdMax, op.fd, op.r);
    } else if BringsData(op) {
      DataTells(k, fdMax, op.from, op.frame.bytes);
    } else if BringsAccept(op) {
      AcceptedTellsNoReader(k, op.from);
    } else {
      OthersTellFalse(k, fdMax, op);
      OnlyFalseCopies(Step(k, fdMax, op).log);
    }
  }

  lemma AcceptedTellsNoReader(n: Node, from: NodeId)
    requires n.log == []
    ensures Copied(HandleAccepted(n, from).log) == [] && !ToldBytes(HandleAccepted(n, from).log)
  {
    CopiedNothing(HandleAccepted(n, from).log);
  }

  lemma ReadsTellNoConnector(n: Node, fd: nat, r: Recv)
    requires n.log == []
    ensures forall i :: 0 <= i < |DoRecv(n, fd, r).log| ==> !DoRecv(n, fd, r).log[i].ConnectDone?
    ensures fd in n.conns ==> forall i :: 0 <= i < |Complete(n, fd, r).log| ==> !Complete(n, fd, r).log[i].ConnectDone?
  {
    hide Drain, Writes;
    if fd in n.conns {
      WritesQuiet(r.cb, Drain(n.conns[fd].queue, r.len).pieces);
    }
  }

  lemma DataTellsNoConnector(n: Node, from: NodeId, bytes: Bytes)
    requires n.log == []
    ensures forall i :: 0 <= i < |HandleData(n, from, bytes).log| ==> !HandleData(n, from, bytes).log[i].ConnectDone?
  {
    hide Complete, Filled;
    if from in n.byRemote && n.byRemote[from] in n.conns {
      var fd := n.byRemote[from];
      var conn := n.conns[fd];
      if conn.wake.Some? {
        ReadsTellNoConnector(n.(conns := n.conns[fd := Filled(conn, bytes)]), fd, conn.wake.value);
      }
    }
  }

  /** A connector is told its number only when its live connection is accepted, and -1 otherwise. */
  lemma ConnectTellsTruth(n: Node, fdMax: nat, op: Op, i: nat)
    requires Inv(n, fdMax) && Allowed(n, op)
    requires op.OpClose? ==> forall fd :: fd in op.order ==> fd in n.conns
    requires i < |Step(n, fdMax, op).log| && Step(n, fdMax, op).log[i].ConnectDone?
    ensures var told := Step(n, fdMax, op).log[i];
            if BringsAccept(op)
            then op.from in n.byRemote && told.fd == n.byRemote[op.from] && Live(n, told.fd)
                 && n.conns[told.fd].accepted == Some(told.cb)
            else told.fd == -1
  {
    hide NumbersOk, ReadyOk, QueuesOk, DoRecv, HandleData, NewFd;
    var k := n.(log := []);
    if op.OpRecv? {
      ReadsTellNoConnector(k, op.fd, op.r);
    } else if BringsData(op) {
      DataTellsNoConnector(k, op.from, op.frame.bytes);
    } else if !BringsAccept(op) {
      LogKeeps(n, fdMax, []);
      AllowedIgnoresLog(n, op);
      StepIgnoresLog(n, fdMax, op);
      OthersTellFalse(k, fdMax, op);
    }
  }
}
