/**
  The free number is exactly what keeps streams apart: as soon as the acceptor has dropped one connect
  frame, the run can go on, dropping no other, so that bytes of one connection are read on another.
 */
module PeerBusExact {
  import opened Arith
  import opened Option
  import opened PeerModel
  import opened PeerInvariant
  import opened PeerAccept
  import opened PeerStreams
  import opened PeerBus

  /** What holds on the bus when `lost` connect frames have been dropped for want of a number. */
  ghost predicate Lossy(bus: Bus, fdMaxA: nat, fdMaxB: nat, t: Trace, lost: nat) {
    && ConnectorOk(bus.a, fdMaxA, t.out, t.posted, t.sa)
    && Inv(bus.b, fdMaxB) && AllTo(bus.b, CONNECTOR) && StreamsOk(bus.b, t.sb) && Latest(bus.b, t.arrived)
    && t.out == t.in_ + bus.ab
    && (forall i :: 0 <= i < |bus.ba| ==> !bus.ba[i].Connect?)
    && |Split(t.in_)| == |t.arrived| + 1 + lost
    && (fdMaxA == 0 ==> t.posted == []) && (fdMaxB == 0 ==> t.arrived == [])
  }

  lemma OpensWithNumbers(n: Node, fdMax: nat, op: Op, m: Node)
    ensures fdMax == 0 ==> Opened(n, fdMax, op, m) == []
  {
  }

  /** What the acceptor's side keeps, with or without a free number. */
  lemma LossyAcceptor(n: Node, fdMax: nat, op: Op, in_: seq<Frame>, ids: seq<Id>, s: Streams)
    requires Inv(n, fdMax) && AllTo(n, CONNECTOR) && StreamsOk(n, s) && Latest(n, ids)
    requires Allowed(n, op) && !op.OpConnect? && (op.OpFrame? ==> op.from == CONNECTOR)
    ensures op.OpClose? ==> forall fd :: fd in op.order ==> fd in n.conns
    ensures var m := Step(n, fdMax, op);
            && Inv(m, fdMax) && AllTo(m, CONNECTOR) && StreamsOk(m, Note(n, op, m, s)) && Latest(m, ids + Opened(n, fdMax, op, m))
            && (forall i :: 0 <= i < |Posts(m.log, CONNECTOR)| ==> !Posts(m.log, CONNECTOR)[i].Connect?)
            && |Split(in_ + Delivered(op))| - |Split(in_)| ==
               |Opened(n, fdMax, op, m)| + if Opening(op) && NewFd(n, fdMax).Full? then 1 else 0
  {
    hide Inv, Allowed, Split, Step, StreamsOk, Latest, Posts, Note, NewFd;
    StepKeeps(n, fdMax, op);
    StepStreams(n, fdMax, op, s);
    if op.OpSend? {
      SendPosts(n, fdMax, CONNECTOR, op.fd, op.data, op.postOk);
    } else {
      StepTame(n, fdMax, CONNECTOR, op);
      PlainPosts(Step(n, fdMax, op).log, CONNECTOR);
    }
    StepLatest(n, fdMax, CONNECTOR, op, ids);
    if op.OpFrame? {
      SplitOne(in_, op.frame);
    } else {
      assert in_ + [] == in_;
    }
  }

  /** Every possible move keeps this, and loses a connect exactly when there is no number for it. */
  lemma LossyStep(bus: Bus, fdMaxA: nat, fdMaxB: nat, move: Move, t: Trace, lost: nat)
    requires Lossy(bus, fdMaxA, fdMaxB, t, lost) && Can(bus, move)
    ensures Lossy(Next(bus, fdMaxA, fdMaxB, move), fdMaxA, fdMaxB, Observe(bus, fdMaxA, fdMaxB, move, t),
                  lost + if HasNumber(bus, fdMaxB, move) then 0 else 1)
  {
    hide ConnectorOk, Inv, AllTo, StreamsOk, Latest, Split, Step, Posts, Note, Opened, NewFd, Allowed;
    var op := Acting(bus, move);
    if move.AtConnector? || move.ToConnector? {
      FrameAllowed(bus.a, op);
      ConnectorStep(bus.a, fdMaxA, op, t.out, t.posted, t.sa);
      OpensWithNumbers(bus.a, fdMaxA, op, Step(bus.a, fdMaxA, op));
      var more := Posts(Step(bus.a, fdMaxA, op).log, ACCEPTOR);
      assert (t.in_ + bus.ab) + more == t.in_ + (bus.ab + more);
    } else {
      FrameAllowed(bus.b, op);
      LossyAcceptor(bus.b, fdMaxB, op, t.in_, t.arrived, t.sb);
      OpensWithNumbers(bus.b, fdMaxB, op, Step(bus.b, fdMaxB, op));
      if move.ToAcceptor? {
        assert t.in_ + bus.ab == (t.in_ + [bus.ab[0]]) + bus.ab[1..];
      } else {
        assert t.in_ + [] == t.in_;
      }
    }
  }

  // ----- runs and their continuations -----

  ghost function Reached(bus: Bus, fdMaxA: nat, fdMaxB: nat, moves: seq<Move>): Bus
    requires Possible(bus, fdMaxA, fdMaxB, moves)
    decreases |moves|
  {
    if moves == [] then bus else Reached(Next(bus, fdMaxA, fdMaxB, moves[0]), fdMaxA, fdMaxB, moves[1..])
  }

  /** A run after a run is a run, and its trace goes on where the first one's ends. */
  lemma {:induction false} RunsConcat(bus: Bus, fdMaxA: nat, fdMaxB: nat, a: seq<Move>, b: seq<Move>, t: Trace)
    requires Possible(bus, fdMaxA, fdMaxB, a)
    ensures Possible(bus, fdMaxA, fdMaxB, a + b) <==> Possible(Reached(bus, fdMaxA, fdMaxB, a), fdMaxA, fdMaxB, b)
    ensures Possible(bus, fdMaxA, fdMaxB, a + b) ==>
      && Reached(bus, fdMaxA, fdMaxB, a + b) == Reached(Reached(bus, fdMaxA, fdMaxB, a), fdMaxA, fdMaxB, b)
      && Traced(bus, fdMaxA, fdMaxB, a + b, t) ==
         Traced(Reached(bus, fdMaxA, fdMaxB, a), fdMaxA, fdMaxB, b, Traced(bus, fdMaxA, fdMaxB, a, t))
      && (Fair(bus, fdMaxA, fdMaxB, a + b) <==>
          Fair(bus, fdMaxA, fdMaxB, a) && Fair(Reached(bus, fdMaxA, fdMaxB, a), fdMaxA, fdMaxB, b))
    decreases |a|
  {
    hide Next, Observe, Can, HasNumber;
    if a == [] {
      assert a + b == b;
    } else {
      assert (a + b)[1..] == a[1..] + b;
      RunsConcat(Next(bus, fdMaxA, fdMaxB, a[0]), fdMaxA, fdMaxB, a[1..], b, Observe(bus, fdMaxA, fdMaxB, a[0], t));
    }
  }

  /** A run loses a connect exactly when it is not fair. */
  lemma {:induction false} RunLoses(bus: Bus, fdMaxA: nat, fdMaxB: nat, moves: seq<Move>, t: Trace, lost: nat) returns (lost': nat)
    requires Lossy(bus, fdMaxA, fdMaxB, t, lost) && Possible(bus, fdMaxA, fdMaxB, moves)
    ensures Lossy(Reached(bus, fdMaxA, fdMaxB, moves), fdMaxA, fdMaxB, Traced(bus, fdMaxA, fdMaxB, moves, t), lost')
    ensures lost' >= lost && (lost' == lost <==> Fair(bus, fdMaxA, fdMaxB, moves))
    decreases |moves|
  {
    hide Lossy, Next, Observe, Can, HasNumber;
    lost' := lost;
    if moves != [] {
      LossyStep(bus, fdMaxA, fdMaxB, moves[0], t, lost);
      lost' := RunLoses(Next(bus, fdMaxA, fdMaxB, moves[0]), fdMaxA, fdMaxB, moves[1..], Observe(bus, fdMaxA, fdMaxB, moves[0], t),
                        lost + if HasNumber(bus, fdMaxB, moves[0]) then 0 else 1);
    }
  }

  /** A place on the bus together with what has been seen on the way. */
  datatype Place = Place(bus: Bus, t: Trace)

  /** A fair run from one place to another. */
  ghost predicate Leads(p: Place, fdMaxA: nat, fdMaxB: nat, moves: seq<Move>, q: Place) {
    && Possible(p.bus, fdMaxA, fdMaxB, moves) && Fair(p.bus, fdMaxA, fdMaxB, moves)
    && q == Place(Reached(p.bus, fdMaxA, fdMaxB, moves), Traced(p.bus, fdMaxA, fdMaxB, moves, p.t))
  }

  ghost function Moved(p: Place, fdMaxA: nat, fdMaxB: nat, move: Move): Place
    requires Can(p.bus, move)
  {
    Place(Next(p.bus, fdMaxA, fdMaxB, move), Observe(p.bus, fdMaxA, fdMaxB, move, p.t))
  }

  lemma LeadsNowhere(p: Place, fdMaxA: nat, fdMaxB: nat)
    ensures Leads(p, fdMaxA, fdMaxB, [], p)
  {
  }

  lemma LeadsByOne(p: Place, fdMaxA: nat, fdMaxB: nat, move: Move)
    requires Can(p.bus, move) && HasNumber(p.bus, fdMaxB, move)
    ensures Leads(p, fdMaxA, fdMaxB, [move], Moved(p, fdMaxA, fdMaxB, move))
  {
    hide Next, Observe, Can, HasNumber;
    assert [move][1..] == [];
    LeadsNowhere(Moved(p, fdMaxA, fdMaxB, move), fdMaxA, fdMaxB);
  }

  lemma LeadsOn(p: Place, fdMaxA: nat, fdMaxB: nat, a: seq<Move>, q: Place, b: seq<Move>, r: Place)
    requires Leads(p, fdMaxA, fdMaxB, a, q) && Leads(q, fdMaxA, fdMaxB, b, r)
    ensures Leads(p, fdMaxA, fdMaxB, a + b, r)
  {
    hide Possible, Fair, Reached, Traced;
    RunsConcat(p.bus, fdMaxA, fdMaxB, a, b, p.t);
  }

  // ----- going on after a lost connect -----

  /** Closing number 0 leaves a free number where there was none. */
  lemma CloseFrees(n: Node, fdMax: nat)
    requires Inv(n, fdMax) && fdMax > 0
    ensures NewFd(Step(n, fdMax, OpCloseConnection(0)), fdMax).Found?
  {
    hide NewFd, Tombstone, Inv;
    var m := Step(n, fdMax, OpCloseConnection(0));
    StepKeeps(n, fdMax, OpCloseConnection(0));
    NextInRange(m, fdMax);
    NewFdIsFirstFree(m, fdMax);
    assert 0 !in m.conns;
  }

  lemma NextInRange(n: Node, fdMax: nat)
    requires Inv(n, fdMax)
    ensures n.nextFd <= fdMax
  {
  }

  /** What is left alone when only the acceptor moves. */
  ghost predicate SameConnector(p: Place, q: Place) {
    && q.bus.a == p.bus.a && q.t.posted == p.t.posted && q.t.sa == p.t.sa && q.t.out == p.t.out && p.t.arrived <= q.t.arrived
  }

  /** The acceptor makes sure of a free number. */
  lemma FreesNumber(p: Place, fdMaxA: nat, fdMaxB: nat, lost: nat) returns (moves: seq<Move>, q: Place)
    requires Lossy(p.bus, fdMaxA, fdMaxB, p.t, lost) && fdMaxB > 0
    ensures Leads(p, fdMaxA, fdMaxB, moves, q) && Lossy(q.bus, fdMaxA, fdMaxB, q.t, lost)
    ensures SameConnector(p, q) && q.bus.ab == p.bus.ab && NewFd(q.bus.b, fdMaxB).Found?
  {
    hide Leads, NewFd, Step, ConnectorOk, StreamsOk, Latest, Split, Note;
    if NewFd(p.bus.b, fdMaxB).Found? {
      moves, q := [], p;
      LeadsNowhere(p, fdMaxA, fdMaxB);
    } else {
      var close := AtAcceptor(OpCloseConnection(0));
      moves, q := [close], Moved(p, fdMaxA, fdMaxB, close);
      LeadsByOne(p, fdMaxA, fdMaxB, close);
      LossyStep(p.bus, fdMaxA, fdMaxB, close, p.t, lost);
      CloseFrees(p.bus.b, fdMaxB);
    }
  }

  /** The acceptor's last connection is alive, and nothing has arrived on it. */
  ghost predicate Untouched(n: Node, ids: seq<Id>, s: Streams, fd: nat) {
    && Live(n, fd) && n.conns[fd].queue == [] && n.conns[fd].wake.None?
    && ids != [] && ids[|ids| - 1] == IdOf(n, fd) && Get(s.read, IdOf(n, fd)) == []
  }

  /** A connect frame that finds a number leaves such a connection. */
  lemma ConnectLeavesUntouched(n: Node, fdMax: nat, ids: seq<Id>, s: Streams)
    requires Inv(n, fdMax) && StreamsOk(n, s) && NewFd(n, fdMax).Found?
    ensures var op := OpFrame(CONNECTOR, Connect);
            var m := Step(n, fdMax, op);
            Untouched(m, ids + Opened(n, fdMax, op, m), Note(n, op, m, s), NewFd(n, fdMax).fd)
  {
    hide Inv, NewFd, Exact, Step, Copied, Extend;
    var op := OpFrame(CONNECTOR, Connect);
    var fd, m := NewFd(n, fdMax).fd, Step(n, fdMax, op);
    OpenedAlive(n, fdMax, op);
    StepOpens(n, fdMax, op);
    FreshIsBare(n, fdMax);
    assert Note(n, op, m, s) == s;
    assert OldOnly(n, s.read);
  }

  lemma FreshIsBare(n: Node, fdMax: nat)
    requires Inv(n, fdMax) && NewFd(n, fdMax).Found?
    ensures var m, fd := Step(n, fdMax, OpFrame(CONNECTOR, Connect)), NewFd(n, fdMax).fd;
            fd in m.conns && m.conns[fd].queue == [] && m.conns[fd].wake.None?
  {
    hide Inv, NewFd, Supersede, HandleConnect;
    SameNumbers(n, fdMax);
    ArrivalOpens(n.(log := []), fdMax, CONNECTOR);
  }

  /** All frames under way to the acceptor arrive, each connect finding a number. */
  lemma {:induction false} Drains(p: Place, fdMaxA: nat, fdMaxB: nat, lost: nat) returns (moves: seq<Move>, q: Place)
    requires Lossy(p.bus, fdMaxA, fdMaxB, p.t, lost) && fdMaxB > 0
    ensures Leads(p, fdMaxA, fdMaxB, moves, q) && Lossy(q.bus, fdMaxA, fdMaxB, q.t, lost)
    ensures SameConnector(p, q) && q.bus.ab == [] && (p.bus.ab == [] ==> q == p)
    ensures p.bus.ab != [] && p.bus.ab[|p.bus.ab| - 1] == Connect ==> exists fd :: Untouched(q.bus.b, q.t.arrived, q.t.sb, fd)
    decreases |p.bus.ab|
  {
    hide Leads, NewFd, Step, ConnectorOk, Inv, AllTo, StreamsOk, Latest, Split, Note, Untouched, Posts, Opened;
    if p.bus.ab == [] {
      moves, q := [], p;
      LeadsNowhere(p, fdMaxA, fdMaxB);
    } else {
      var free, p1 := FreesNumber(p, fdMaxA, fdMaxB, lost);
      var p2 := Moved(p1, fdMaxA, fdMaxB, ToAcceptor);
      LeadsByOne(p1, fdMaxA, fdMaxB, ToAcceptor);
      LossyStep(p1.bus, fdMaxA, fdMaxB, ToAcceptor, p1.t, lost);
      if p.bus.ab[0] == Connect {
        ConnectLeavesUntouched(p1.bus.b, fdMaxB, p1.t.arrived, p1.t.sb);
      }
      var rest, p3 := Drains(p2, fdMaxA, fdMaxB, lost);
      LeadsOn(p, fdMaxA, fdMaxB, free, p1, [ToAcceptor], p2);
      LeadsOn(p, fdMaxA, fdMaxB, free + [ToAcceptor], p2, rest, p3);
      moves, q := free + [ToAcceptor] + rest, p3;
    }
  }

  /** The connector connects once more, freeing a number first if it has to. */
  lemma Reconnects(p: Place, fdMaxA: nat, fdMaxB: nat, lost: nat) returns (moves: seq<Move>, q: Place, fd: nat)
    requires Lossy(p.bus, fdMaxA, fdMaxB, p.t, lost) && fdMaxA > 0
    ensures Leads(p, fdMaxA, fdMaxB, moves, q) && Lossy(q.bus, fdMaxA, fdMaxB, q.t, lost)
    ensures q.bus.b == p.bus.b && q.t.arrived == p.t.arrived && q.t.sb == p.t.sb
    ensures Live(q.bus.a, fd) && q.t.posted == p.t.posted + [IdOf(q.bus.a, fd)] && q.t.sa.sent == p.t.sa.sent
    ensures q.bus.ab != [] && q.bus.ab[|q.bus.ab| - 1] == Connect
  {
    hide Leads, NewFd, Step, AllTo, StreamsOk, Latest, Split, Note, Posts, Opened, Posting, Inv;
    var first: seq<Move>, p1: Place;
    if NewFd(p.bus.a, fdMaxA).Found? {
      first, p1 := [], p;
      LeadsNowhere(p, fdMaxA, fdMaxB);
    } else {
      var close := AtConnector(OpCloseConnection(0));
      first, p1 := [close], Moved(p, fdMaxA, fdMaxB, close);
      LeadsByOne(p, fdMaxA, fdMaxB, close);
      LossyStep(p.bus, fdMaxA, fdMaxB, close, p.t, lost);
      CloseFrees(p.bus.a, fdMaxA);
      OpensNothing(p.bus.a, fdMaxA, close.op, Step(p.bus.a, fdMaxA, close.op));
      SentStays(p.bus.a, close.op, Step(p.bus.a, fdMaxA, close.op), p.t.sa);
      assert p1.t.posted == p.t.posted + [] == p.t.posted;
    }
    var op := OpConnect(ACCEPTOR, 0);
    fd := NewFd(p1.bus.a, fdMaxA).fd;
    q := Moved(p1, fdMaxA, fdMaxB, AtConnector(op));
    moves := first + [AtConnector(op)];
    LeadsByOne(p1, fdMaxA, fdMaxB, AtConnector(op));
    LossyStep(p1.bus, fdMaxA, fdMaxB, AtConnector(op), p1.t, lost);
    LeadsOn(p, fdMaxA, fdMaxB, first, p1, [AtConnector(op)], q);
    OpenedAlive(p1.bus.a, fdMaxA, op);
    OpenedIs(p1.bus.a, fdMaxA, op, q.bus.a);
    ConnectPosts(p1.bus.a, fdMaxA, ACCEPTOR, 0, []);
    SentStays(p1.bus.a, op, q.bus.a, p1.t.sa);
  }

  lemma OpenedIs(n: Node, fdMax: nat, op: Op, m: Node)
    requires Opening(op) && NewFd(n, fdMax).Found?
    ensures Opened(n, fdMax, op, m) == [IdOf(m, NewFd(n, fdMax).fd)]
  {
  }

  /** The connector sends one byte, and it is delivered. */
  lemma SendsOne(p: Place, fdMaxA: nat, fdMaxB: nat, lost: nat, fd: nat, byte: bv8) returns (moves: seq<Move>, q: Place)
    requires Lossy(p.bus, fdMaxA, fdMaxB, p.t, lost) && Live(p.bus.a, fd) && p.bus.ab == []
    ensures Leads(p, fdMaxA, fdMaxB, moves, q) && Lossy(q.bus, fdMaxA, fdMaxB, q.t, lost)
    ensures q.t.posted == p.t.posted && q.t.arrived == p.t.arrived
    ensures forall id :: id != IdOf(p.bus.a, fd) ==> Get(q.t.sa.sent, id) == Get(p.t.sa.sent, id)
    ensures var op := OpFrame(CONNECTOR, Data([byte]));
            q.bus.b == Step(p.bus.b, fdMaxB, op) && q.t.sb == Note(p.bus.b, op, q.bus.b, p.t.sb)
  {
    hide Leads, NewFd, Step, StreamsOk, Latest, Split, Note, Posts, Opened, Posting, Inv, TakenBy;
    var op := OpSend(fd, [byte], true);
    var p1 := Moved(p, fdMaxA, fdMaxB, AtConnector(op));
    LeadsByOne(p, fdMaxA, fdMaxB, AtConnector(op));
    LossyStep(p.bus, fdMaxA, fdMaxB, AtConnector(op), p.t, lost);
    OpensNothing(p.bus.a, fdMaxA, op, p1.bus.a);
    SendPosts(p.bus.a, fdMaxA, ACCEPTOR, fd, [byte], true);
    TakesOne(p.bus.a, fd, byte);
    NoteSent(p.bus.a, op, p1.bus.a, p.t.sa);
    assert p1.bus.ab == [Data([byte])];
    assert p1.t.posted == p.t.posted + [] == p.t.posted;
    q := Moved(p1, fdMaxA, fdMaxB, ToAcceptor);
    LeadsByOne(p1, fdMaxA, fdMaxB, ToAcceptor);
    LossyStep(p1.bus, fdMaxA, fdMaxB, ToAcceptor, p1.t, lost);
    OpensNothing(p1.bus.b, fdMaxB, OpFrame(CONNECTOR, Data([byte])), q.bus.b);
    assert q.t.arrived == p.t.arrived + [] == p.t.arrived;
    LeadsOn(p, fdMaxA, fdMaxB, [AtConnector(op)], p1, [ToAcceptor], q);
    moves := [AtConnector(op)] + [ToAcceptor];
  }

  lemma TakesOne(n: Node, fd: nat, byte: bv8)
    requires Live(n, fd)
    ensures TakenBy(n, OpSend(fd, [byte], true)) == [byte]
  {
    var data: Bytes := [byte];
    assert data[..1] == data;
  }

  /** A byte delivered to an untouched connection is what the next read of one byte gets. */
  lemma ByteIsRead(n: Node, fdMax: nat, ids: seq<Id>, s: Streams, fd: nat, byte: bv8)
    requires Inv(n, fdMax) && AllTo(n, CONNECTOR) && Untouched(n, ids, s, fd)
    ensures var op, r := OpFrame(CONNECTOR, Data([byte])), OpRecv(fd, Recv(1, 0));
            var m := Step(n, fdMax, op);
            var s1 := Note(n, op, m, s);
            Get(Note(m, r, Step(m, fdMax, r), s1).read, IdOf(n, fd)) == [byte]
  {
    hide Inv, Extend, Copied, NewFd, HandleData, DoRecv;
    var op, r := OpFrame(CONNECTOR, Data([byte])), OpRecv(fd, Recv(1, 0));
    var m := Step(n, fdMax, op);
    FindsIt(n, fdMax, fd);
    ByteQueued(n, fdMax, fd, byte);
    StepKeeps(n, fdMax, op);
    assert m.opens == n.opens by { StepOpens(n, fdMax, op); }
    ByteTaken(m, fdMax, fd, byte);
    NoteGets(n, op, m, s);
    NoteGets(m, r, Step(m, fdMax, r), Note(n, op, m, s));
  }

  lemma FindsIt(n: Node, fdMax: nat, fd: nat)
    requires Inv(n, fdMax) && AllTo(n, CONNECTOR) && Live(n, fd)
    ensures CONNECTOR in n.byRemote && n.byRemote[CONNECTOR] == fd
  {
  }

  lemma ByteQueued(n: Node, fdMax: nat, fd: nat, byte: bv8)
    requires CONNECTOR in n.byRemote && n.byRemote[CONNECTOR] == fd
    requires Live(n, fd) && n.conns[fd].queue == [] && n.conns[fd].wake.None?
    ensures var m := Step(n, fdMax, OpFrame(CONNECTOR, Data([byte])));
            Live(m, fd) && m.conns[fd].queue == [[byte]] && Copied(m.log) == []
  {
    assert [] + [[byte]] == [[byte]];
  }

  lemma ByteTaken(n: Node, fdMax: nat, fd: nat, byte: bv8)
    requires Live(n, fd) && n.conns[fd].queue == [[byte]]
    ensures Copied(Step(n, fdMax, OpRecv(fd, Recv(1, 0))).log) == [byte]
  {
    hide Writes, Copied;
    var k, queue := n.(log := []), n.conns[fd].queue;
    assert queue[1..] == [];
    assert Drain(queue, 1) == Drained([[byte]], [], 1);
    CompleteCopies(k, fd, Recv(1, 0));
    assert Flat([[byte]]) == [byte] + Flat([]) == [byte] by { assert [[byte]][1..] == []; }
  }

  /** A byte string that does not begin another. */
  function Other(x: Bytes): (byte: bv8)
    ensures !([byte] <= x)
  {
    if x == [] then 0 else x[0] + 1
  }

  /** From a place where connects have been lost, the run can go on fairly until streams are mixed. */
  lemma LostMixes(p: Place, fdMaxA: nat, fdMaxB: nat, lost: nat) returns (moves: seq<Move>, q: Place)
    requires Lossy(p.bus, fdMaxA, fdMaxB, p.t, lost) && lost > 0 && fdMaxB > 0
    ensures Leads(p, fdMaxA, fdMaxB, moves, q) && !Isolated(q.t)
  {
    hide Leads, NewFd, Step, Split, Note, Posts, Opened, Inv, Get, Untouched, StreamsOk;
    var m1, p1 := Drains(p, fdMaxA, fdMaxB, lost);
    var j := |p1.t.arrived|;
    assert p1.t.in_ + [] == p1.t.in_;
    assert j + lost == |p1.t.posted|;
    var m2, p2, fdA := Reconnects(p1, fdMaxA, fdMaxB, lost);
    var m3, p3 := Drains(p2, fdMaxA, fdMaxB, lost);
    assert p3.t.in_ + [] == p3.t.in_;
    assert |p3.t.arrived| == j + 1;
    var fdB :| Untouched(p3.bus.b, p3.t.arrived, p3.t.sb, fdB);
    var byte := Other(Get(p1.t.sa.sent, p1.t.posted[j]));
    var m4, p4 := SendsOne(p3, fdMaxA, fdMaxB, lost, fdA, byte);
    var recv := AtAcceptor(OpRecv(fdB, Recv(1, 0)));
    q := Moved(p4, fdMaxA, fdMaxB, recv);
    LeadsByOne(p4, fdMaxA, fdMaxB, recv);
    ByteIsRead(p3.bus.b, fdMaxB, p3.t.arrived, p3.t.sb, fdB, byte);
    OpensNothing(p4.bus.b, fdMaxB, recv.op, q.bus.b);
    LeadsOn(p, fdMaxA, fdMaxB, m1, p1, m2, p2);
    LeadsOn(p, fdMaxA, fdMaxB, m1 + m2, p2, m3, p3);
    LeadsOn(p, fdMaxA, fdMaxB, m1 + m2 + m3, p3, m4, p4);
    LeadsOn(p, fdMaxA, fdMaxB, m1 + m2 + m3 + m4, p4, [recv], q);
    moves := m1 + m2 + m3 + m4 + [recv];
    assert q.t.arrived == p3.t.arrived + [] == p3.t.arrived;
    UntouchedIs(p3.bus.b, p3.t.arrived, p3.t.sb, fdB);
    assert q.t.posted[j] == p1.t.posted[j] != q.t.posted[|p1.t.posted|];
    assert Get(q.t.sb.read, q.t.arrived[j]) == [byte];
    assert Get(q.t.sa.sent, q.t.posted[j]) == Get(p1.t.sa.sent, p1.t.posted[j]);
  }

  lemma UntouchedIs(n: Node, ids: seq<Id>, s: Streams, fd: nat)
    requires Untouched(n, ids, s, fd)
    ensures ids != [] && ids[|ids| - 1] == IdOf(n, fd)
  {
  }

  // ----- the condition is exact -----

  /** A continuation that drops no further connect frame keeps the streams apart. */
  ghost predicate KeepsApart(fdMaxA: nat, fdMaxB: nat, moves: seq<Move>, more: seq<Move>)
    requires Possible(Quiet, fdMaxA, fdMaxB, moves)
  {
    var bus := Reached(Quiet, fdMaxA, fdMaxB, moves);
    RunsConcat(Quiet, fdMaxA, fdMaxB, moves, more, Unseen);
    Possible(bus, fdMaxA, fdMaxB, more) && Fair(bus, fdMaxA, fdMaxB, more) ==>
      Isolated(Traced(Quiet, fdMaxA, fdMaxB, moves + more, Unseen))
  }

  lemma QuietLosesNothing(fdMaxA: nat, fdMaxB: nat)
    ensures Lossy(Quiet, fdMaxA, fdMaxB, Unseen, 0)
  {
    hide ConnectorOk, AcceptorOk;
    QuietOk(fdMaxA, fdMaxB);
    QuietAcceptor(fdMaxB);
    assert Split([]) == [[]];
  }

  lemma QuietAcceptor(fdMax: nat)
    ensures Inv(Init(), fdMax) && AllTo(Init(), CONNECTOR) && StreamsOk(Init(), Silence) && Latest(Init(), [])
  {
    InitInv(fdMax);
  }

  /**
    For every run, and an acceptor that has numbers at all: the acceptor had a free number for each
    connect so far if and only if no way of going on, dropping no further connect, mixes the streams.
   */
  lemma FreeNumbersDecide(fdMaxA: nat, fdMaxB: nat, moves: seq<Move>)
    requires fdMaxB > 0 && Possible(Quiet, fdMaxA, fdMaxB, moves)
    ensures Fair(Quiet, fdMaxA, fdMaxB, moves) <==> forall more :: KeepsApart(fdMaxA, fdMaxB, moves, more)
  {
    hide Possible, Fair, Reached, Traced, Lossy, Isolated, Leads;
    var bus := Reached(Quiet, fdMaxA, fdMaxB, moves);
    if Fair(Quiet, fdMaxA, fdMaxB, moves) {
      forall more
        ensures KeepsApart(fdMaxA, fdMaxB, moves, more)
      {
        RunsConcat(Quiet, fdMaxA, fdMaxB, moves, more, Unseen);
        if Possible(bus, fdMaxA, fdMaxB, more) && Fair(bus, fdMaxA, fdMaxB, more) {
          StreamsStayApart(fdMaxA, fdMaxB, moves + more);
        }
      }
    } else {
      QuietLosesNothing(fdMaxA, fdMaxB);
      var lost := RunLoses(Quiet, fdMaxA, fdMaxB, moves, Unseen, 0);
      var p := Place(bus, Traced(Quiet, fdMaxA, fdMaxB, moves, Unseen));
      var more, q := LostMixes(p, fdMaxA, fdMaxB, lost);
      LeadsMeans(p, fdMaxA, fdMaxB, more, q);
      RunsConcat(Quiet, fdMaxA, fdMaxB, moves, more, Unseen);
      assert !KeepsApart(fdMaxA, fdMaxB, moves, more);
    }
  }

  lemma LeadsMeans(p: Place, fdMaxA: nat, fdMaxB: nat, moves: seq<Move>, q: Place)
    requires Leads(p, fdMaxA, fdMaxB, moves, q)
    ensures Possible(p.bus, fdMaxA, fdMaxB, moves) && Fair(p.bus, fdMaxA, fdMaxB, moves)
    ensures q.t == Traced(p.bus, fdMaxA, fdMaxB, moves, p.t)
  {
  }

  /** An acceptor without any number opens nothing, so there is nothing to mix. */
  lemma NoNumbersNoStreams(fdMaxA: nat, moves: seq<Move>)
    requires Possible(Quiet, fdMaxA, 0, moves)
    ensures Traced(Quiet, fdMaxA, 0, moves, Unseen).arrived == [] && Isolated(Traced(Quiet, fdMaxA, 0, moves, Unseen))
  {
    hide Possible, Reached, Traced;
    QuietLosesNothing(fdMaxA, 0);
    var lost := RunLoses(Quiet, fdMaxA, 0, moves, Unseen, 0);
  }
}
