/**
  Taking turns is exactly what keeps answers apart: the first move out of turn can be followed, in turn,
  by moves after which the connector has read on one connection what was sent on another.
 */
module PeerBusTurns {
  import opened Arith
  import opened Option
  import opened PeerModel
  import opened PeerInvariant
  import opened PeerAccept
  import opened PeerStreams
  import opened PeerBus
  import opened PeerBusBack
  import opened PeerBusExact

  /** The connector is alive on a connection whose connect has not been taken yet. */
  ghost predicate Ahead(bus: Bus, t: Trace) { SomeAlive(bus.a) && |t.arrived| < |t.posted| }

  /** What was read on such a connection was sent on no connection of the acceptor's that could be its partner. */
  lemma ReadAhead(t: Trace)
    requires |t.arrived| < |t.posted| && Get(t.sa.read, t.posted[|t.posted| - 1]) != []
    ensures !BackIsolated(t)
  {
    assert SentTo(t.sb.sent, t.arrived, |t.posted| - 1) == [];
  }

  /** A live connection that has received something has been read from, or the next read gets something. */
  lemma ReadsOn(n: Node, fdMax: nat, s: Streams, fd: nat)
    requires Inv(n, fdMax) && StreamsOk(n, s) && Live(n, fd) && Get(s.received, IdOf(n, fd)) != []
    ensures var op := OpRecv(fd, Recv(1, 0));
            Get(s.read, IdOf(n, fd)) == [] ==> Get(Note(n, op, Step(n, fdMax, op), s).read, IdOf(n, fd)) != []
  {
    hide Drain, Complete, Copied, ToldBytes, Flat;
    var op, k := OpRecv(fd, Recv(1, 0)), n.(log := []);
    if Get(s.read, IdOf(n, fd)) == [] {
      EmptyIsFlat(n.conns[fd].queue);
      assert QueueOk(n.conns[fd]);
      DrainTakes(n.conns[fd], 1);
      CompleteTells(k, fd, Recv(1, 0));
      NoteGets(n, op, Step(n, fdMax, op), s);
    }
  }

  /** The connector reads what has come in ahead of its connect. */
  lemma ReadsAhead(bus: Bus, fdMaxA: nat, fdMaxB: nat, t: Trace) returns (moves: seq<Move>)
    requires BusOk(bus, fdMaxA, fdMaxB, t) && Ahead(bus, t)
    requires Get(t.sa.received, t.posted[|t.posted| - 1]) != []
    ensures Possible(bus, fdMaxA, fdMaxB, moves) && Fair(bus, fdMaxA, fdMaxB, moves) && TakesTurns(bus, fdMaxA, fdMaxB, moves)
    ensures !BackIsolated(Traced(bus, fdMaxA, fdMaxB, moves, t))
  {
    hide Inv, StreamsOk, Step, Note, Posts, BackIsolated, Split, Posting, AcceptorOk;
    var fd :| Live(bus.a, fd);
    if Get(t.sa.read, t.posted[|t.posted| - 1]) != [] {
      moves := [];
      ReadAhead(t);
    } else {
      var move := AtConnector(OpRecv(fd, Recv(1, 0)));
      moves := [move];
      assert moves[1..] == [];
      ReadsOn(bus.a, fdMaxA, t.sa, fd);
      OpensNothing(bus.a, fdMaxA, move.op, Step(bus.a, fdMaxA, move.op));
      var after := Observe(bus, fdMaxA, fdMaxB, move, t);
      assert after.posted == t.posted + [] == t.posted;
      ReadAhead(after);
    }
  }

  /** A frame that is no close leaves the connector's connection alive. */
  lemma StaysAlive(n: Node, fdMax: nat, frame: Frame)
    requires Inv(n, fdMax) && SomeAlive(n) && !frame.Close? && !frame.Connect?
    ensures SomeAlive(Step(n, fdMax, OpFrame(ACCEPTOR, frame)))
  {
    hide Inv, Step;
    var fd :| Live(n, fd);
    LivesExactly(n, fdMax, OpFrame(ACCEPTOR, frame), fd);
  }

  /** Data delivered while a connection is alive is received on the newest one. */
  lemma ReceivesNewest(bus: Bus, fdMaxA: nat, fdMaxB: nat, t: Trace)
    requires BusOk(bus, fdMaxA, fdMaxB, t) && SomeAlive(bus.a) && bus.ba != [] && bus.ba[0].Data? && bus.ba[0].bytes != []
    ensures t.posted != [] && Get(Observe(bus, fdMaxA, fdMaxB, ToConnector, t).sa.received, t.posted[|t.posted| - 1]) != []
  {
    hide Inv, StreamsOk, Step, Note, Posts, Split, Posting, AcceptorOk, Extend;
    var op := OpFrame(ACCEPTOR, bus.ba[0]);
    FoundWhenAlive(bus.a, fdMaxA);
    DataNotes(bus.a, op, Step(bus.a, fdMaxA, op), t.sa);
    ExtendGets(t.sa.received, IdOf(bus.a, bus.a.byRemote[ACCEPTOR]), op.frame.bytes);
  }

  lemma ExtendGets(m: map<Id, Bytes>, id: Id, bytes: Bytes)
    ensures Get(Extend(m, id, bytes), id) == Get(m, id) + bytes
  {
  }

  /** Data that reaches a connection ahead of its connect gets read there. */
  lemma {:induction false} DataMixes(bus: Bus, fdMaxA: nat, fdMaxB: nat, t: Trace) returns (moves: seq<Move>)
    requires BusOk(bus, fdMaxA, fdMaxB, t) && Ahead(bus, t) && Reaching(bus.ba) != []
    ensures Possible(bus, fdMaxA, fdMaxB, moves) && Fair(bus, fdMaxA, fdMaxB, moves) && TakesTurns(bus, fdMaxA, fdMaxB, moves)
    ensures !BackIsolated(Traced(bus, fdMaxA, fdMaxB, moves, t))
    decreases |bus.ba|
  {
    hide Inv, StreamsOk, Step, Note, Posts, BackIsolated, Split, Posting, Latest, AcceptorOk, HasClose;
    var next, after := Next(bus, fdMaxA, fdMaxB, ToConnector), Observe(bus, fdMaxA, fdMaxB, ToConnector, t);
    var frame := bus.ba[0];
    BusStep(bus, fdMaxA, fdMaxB, ToConnector, t);
    StaysAlive(bus.a, fdMaxA, frame);
    OpensNothing(bus.a, fdMaxA, OpFrame(ACCEPTOR, frame), next.a);
    assert after.posted == t.posted + [] == t.posted;
    var rest: seq<Move>;
    if frame.Data? && frame.bytes != [] {
      ReceivesNewest(bus, fdMaxA, fdMaxB, t);
      rest := ReadsAhead(next, fdMaxA, fdMaxB, after);
    } else {
      HeadOff(bus.ba);
      rest := DataMixes(next, fdMaxA, fdMaxB, after);
    }
    moves := [ToConnector] + rest;
    assert moves[1..] == rest;
  }

  /** A move out of turn puts data on its way to a connection ahead of its connect. */
  lemma OutOfTurn(bus: Bus, fdMaxA: nat, fdMaxB: nat, move: Move, t: Trace)
    requires BusOk(bus, fdMaxA, fdMaxB, t) && Can(bus, move) && !TakesTurn(bus, fdMaxA, move)
    ensures Ahead(Next(bus, fdMaxA, fdMaxB, move), Observe(bus, fdMaxA, fdMaxB, move, t))
    ensures Reaching(Next(bus, fdMaxA, fdMaxB, move).ba) != []
  {
    hide Inv, StreamsOk, Step, Note, Posts, Split, Posting, NewFd, HasConnect, HasClose, Reaching, Receiving, TakenBy, Latest;
    CountsMatch(bus, fdMaxA, fdMaxB, t);
    var op := Acting(bus, move);
    if move.AtConnector? {
      OpenedAlive(bus.a, fdMaxA, op);
    } else {
      OnlySendTakes(bus.b, op);
      SendPosts(bus.b, fdMaxB, CONNECTOR, op.fd, op.data, op.postOk);
      OpensNothing(bus.b, fdMaxB, op, Step(bus.b, fdMaxB, op));
      ReachingConcat(bus.ba, [Data(TakenBy(bus.b, op))]);
      ReachingOne(TakenBy(bus.b, op));
      assert t.arrived + [] == t.arrived;
    }
  }

  lemma OnlySendTakes(n: Node, op: Op)
    ensures TakenBy(n, op) != [] ==> op.OpSend?
  {
  }

  // ----- the condition is exact -----

  /** A continuation in turn, in which no connect is dropped, keeps the answers apart. */
  ghost predicate KeepsAnswersApart(fdMaxA: nat, fdMaxB: nat, moves: seq<Move>, more: seq<Move>)
    requires Possible(Quiet, fdMaxA, fdMaxB, moves)
  {
    var bus := Reached(Quiet, fdMaxA, fdMaxB, moves);
    RunsConcat(Quiet, fdMaxA, fdMaxB, moves, more, Unseen);
    Possible(bus, fdMaxA, fdMaxB, more) && Fair(bus, fdMaxA, fdMaxB, more) && TakesTurns(bus, fdMaxA, fdMaxB, more) ==>
      BackIsolated(Traced(Quiet, fdMaxA, fdMaxB, moves + more, Unseen))
  }

  lemma {:induction false} TurnsConcat(bus: Bus, fdMaxA: nat, fdMaxB: nat, a: seq<Move>, b: seq<Move>)
    requires Possible(bus, fdMaxA, fdMaxB, a) && Possible(Reached(bus, fdMaxA, fdMaxB, a), fdMaxA, fdMaxB, b)
    ensures Possible(bus, fdMaxA, fdMaxB, a + b)
    ensures TakesTurns(bus, fdMaxA, fdMaxB, a + b) <==>
            TakesTurns(bus, fdMaxA, fdMaxB, a) && TakesTurns(Reached(bus, fdMaxA, fdMaxB, a), fdMaxA, fdMaxB, b)
    decreases |a|
  {
    hide Next, Can, TakesTurn, Traced, Fair, Observe, HasNumber;
    RunsConcat(bus, fdMaxA, fdMaxB, a, b, Unseen);
    if a == [] {
      assert a + b == b;
    } else {
      assert (a + b)[1..] == a[1..] + b;
      TurnsConcat(Next(bus, fdMaxA, fdMaxB, a[0]), fdMaxA, fdMaxB, a[1..], b);
    }
  }

  lemma {:induction false} RunIsOk(bus: Bus, fdMaxA: nat, fdMaxB: nat, moves: seq<Move>, t: Trace)
    requires BusOk(bus, fdMaxA, fdMaxB, t) && Possible(bus, fdMaxA, fdMaxB, moves) && Fair(bus, fdMaxA, fdMaxB, moves)
    ensures BusOk(Reached(bus, fdMaxA, fdMaxB, moves), fdMaxA, fdMaxB, Traced(bus, fdMaxA, fdMaxB, moves, t))
    decreases |moves|
  {
    hide BusOk, Next, Observe, Can, HasNumber;
    if moves != [] {
      BusStep(bus, fdMaxA, fdMaxB, moves[0], t);
      RunIsOk(Next(bus, fdMaxA, fdMaxB, moves[0]), fdMaxA, fdMaxB, moves[1..], Observe(bus, fdMaxA, fdMaxB, moves[0], t));
    }
  }

  /** What one more move does to a run. */
  lemma OneMore(fdMaxA: nat, fdMaxB: nat, moves: seq<Move>, move: Move)
    requires Possible(Quiet, fdMaxA, fdMaxB, moves) && Possible(Quiet, fdMaxA, fdMaxB, moves + [move])
    ensures var bus := Reached(Quiet, fdMaxA, fdMaxB, moves);
            var t := Traced(Quiet, fdMaxA, fdMaxB, moves, Unseen);
            && Can(bus, move)
            && Reached(Quiet, fdMaxA, fdMaxB, moves + [move]) == Next(bus, fdMaxA, fdMaxB, move)
            && Traced(Quiet, fdMaxA, fdMaxB, moves + [move], Unseen) == Observe(bus, fdMaxA, fdMaxB, move, t)
            && (TakesTurns(Quiet, fdMaxA, fdMaxB, moves + [move]) <==> TakesTurns(Quiet, fdMaxA, fdMaxB, moves) && TakesTurn(bus, fdMaxA, move))
            && (Fair(Quiet, fdMaxA, fdMaxB, moves + [move]) <==> Fair(Quiet, fdMaxA, fdMaxB, moves) && HasNumber(bus, fdMaxB, move))
  {
    hide Next, Observe, Can, TakesTurn, HasNumber;
    RunsConcat(Quiet, fdMaxA, fdMaxB, moves, [move], Unseen);
    TurnsConcat(Quiet, fdMaxA, fdMaxB, moves, [move]);
    assert [move][1..] == [];
  }

  /**
    For every run in turn and every next move, while the acceptor has its numbers: the move is in turn if
    and only if no way of going on in turn from there mixes the answers.
   */
  lemma TurnsDecide(fdMaxA: nat, fdMaxB: nat, moves: seq<Move>, move: Move)
    requires Possible(Quiet, fdMaxA, fdMaxB, moves) && TakesTurns(Quiet, fdMaxA, fdMaxB, moves)
    requires Possible(Quiet, fdMaxA, fdMaxB, moves + [move]) && Fair(Quiet, fdMaxA, fdMaxB, moves + [move])
    ensures TakesTurn(Reached(Quiet, fdMaxA, fdMaxB, moves), fdMaxA, move) <==>
            forall more :: KeepsAnswersApart(fdMaxA, fdMaxB, moves + [move], more)
  {
    hide Possible, Fair, Reached, Traced, TakesTurns, BackIsolated, BusOk, TakesTurn, Next, Observe, Can, HasNumber, Reaching, Ahead;
    var run := moves + [move];
    var bus, t := Reached(Quiet, fdMaxA, fdMaxB, moves), Traced(Quiet, fdMaxA, fdMaxB, moves, Unseen);
    OneMore(fdMaxA, fdMaxB, moves, move);
    QuietOk(fdMaxA, fdMaxB);
    RunIsOk(Quiet, fdMaxA, fdMaxB, moves, Unseen);
    if TakesTurn(bus, fdMaxA, move) {
      forall more
        ensures KeepsAnswersApart(fdMaxA, fdMaxB, run, more)
      {
        GoesOnInTurn(fdMaxA, fdMaxB, run, more);
      }
    } else {
      OutOfTurn(bus, fdMaxA, fdMaxB, move, t);
      BusStep(bus, fdMaxA, fdMaxB, move, t);
      var more := DataMixes(Next(bus, fdMaxA, fdMaxB, move), fdMaxA, fdMaxB, Observe(bus, fdMaxA, fdMaxB, move, t));
      RunsConcat(Quiet, fdMaxA, fdMaxB, run, more, Unseen);
      assert !KeepsAnswersApart(fdMaxA, fdMaxB, run, more);
    }
  }

  lemma GoesOnInTurn(fdMaxA: nat, fdMaxB: nat, run: seq<Move>, more: seq<Move>)
    requires Possible(Quiet, fdMaxA, fdMaxB, run) && Fair(Quiet, fdMaxA, fdMaxB, run) && TakesTurns(Quiet, fdMaxA, fdMaxB, run)
    ensures KeepsAnswersApart(fdMaxA, fdMaxB, run, more)
  {
    hide Possible, Fair, Reached, Traced, TakesTurns, BackIsolated;
    var bus := Reached(Quiet, fdMaxA, fdMaxB, run);
    RunsConcat(Quiet, fdMaxA, fdMaxB, run, more, Unseen);
    if Possible(bus, fdMaxA, fdMaxB, more) && Fair(bus, fdMaxA, fdMaxB, more) && TakesTurns(bus, fdMaxA, fdMaxB, more) {
      TurnsConcat(Quiet, fdMaxA, fdMaxB, run, more);
      AnswersStayApart(fdMaxA, fdMaxB, run + more);
    }
  }
}
