/**
  The other direction, from acceptor to connector, when the two take turns: the connector opens a new
  connection only when no answer would reach it, and the acceptor answers only when the answer cannot
  overtake a connect that is under way to it.
 */
module PeerBusBack {
  import opened Arith
  import opened Option
  import opened PeerModel
  import opened PeerInvariant
  import opened PeerAccept
  import opened PeerStreams
  import opened PeerBus

  ghost predicate HasConnect(frames: seq<Frame>) { exists i :: 0 <= i < |frames| && frames[i].Connect? }

  predicate HasClose(frames: seq<Frame>) {
    frames != [] && (frames[0].Close? || HasClose(frames[1..]))
  }

  /** The data under way that a live connection will get: what comes before the first close. */
  function Reaching(frames: seq<Frame>): Bytes {
    if frames == [] || frames[0].Close? then []
    else (if frames[0].Data? then frames[0].bytes else []) + Reaching(frames[1..])
  }

  ghost predicate SomeAlive(n: Node) { exists fd :: Live(n, fd) }

  /** Nothing that answers one connection is on its way to the connection that replaces it. */
  ghost predicate TakesTurn(bus: Bus, fdMaxA: nat, move: Move) {
    match move
    case AtConnector(op) => op.OpConnect? && NewFd(bus.a, fdMaxA).Found? ==> Reaching(bus.ba) == []
    case AtAcceptor(op) => TakenBy(bus.b, op) != [] ==> !(SomeAlive(bus.a) && HasConnect(bus.ab) && !HasClose(bus.ba))
    case _ => true
  }

  lemma {:induction false} ReachingConcat(a: seq<Frame>, b: seq<Frame>)
    ensures Reaching(a + b) == Reaching(a) + (if HasClose(a) then [] else Reaching(b))
    ensures HasClose(a + b) <==> HasClose(a) || HasClose(b)
  {
    if a == [] {
      assert a + b == b;
    } else {
      assert (a + b)[1..] == a[1..] + b;
      ReachingConcat(a[1..], b);
    }
  }

  lemma {:induction false} PlainReachesNothing(frames: seq<Frame>)
    requires forall i :: 0 <= i < |frames| ==> Plain(frames[i])
    ensures Reaching(frames) == []
  {
    if frames != [] {
      PlainReachesNothing(frames[1..]);
    }
  }

  lemma {:induction false} RunsWithoutConnect(frames: seq<Frame>, more: seq<Frame>)
    ensures !HasConnect(more) ==> |Split(frames + more)| == |Split(frames)|
  {
    if more == [] {
      assert frames + more == frames;
    } else {
      var head, last := more[..|more| - 1], more[|more| - 1];
      RunsWithoutConnect(frames, head);
      SplitOne(frames + head, last);
      assert frames + more == (frames + head) + [last];
      assert last == more[|more| - 1] && forall i :: 0 <= i < |head| ==> head[i] == more[i];
    }
  }

  lemma RunsWithConnect(frames: seq<Frame>, more: seq<Frame>)
    ensures HasConnect(more) ==> |Split(frames + more)| > |Split(frames)|
  {
    hide Split;
    if i :| 0 <= i < |more| && more[i].Connect? {
      var before, rest := frames + more[..i], more[i + 1..];
      SplitGrows(frames, more[..i]);
      SplitOne(before, Connect);
      SplitGrows(before + [Connect], rest);
      assert frames + more == (before + [Connect]) + rest;
    }
  }

  function SentTo(sent: map<Id, Bytes>, arrived: seq<Id>, k: nat): Bytes {
    if k < |arrived| then Get(sent, arrived[k]) else []
  }

  /** What the connector received is a prefix of what was sent to it, connection by connection. Nothing is
      on its way to one whose connect is still under way, and to one that has its partner only more of what
      was sent: all of the rest, unless a close is in between. */
  ghost predicate Returning(alive: bool, ab: seq<Frame>, ba: seq<Frame>, posted: seq<Id>, arrived: seq<Id>,
                            received: map<Id, Bytes>, sent: map<Id, Bytes>)
  {
    && (forall k :: 0 <= k < |posted| ==> Get(received, posted[k]) <= SentTo(sent, arrived, k))
    && (alive && HasConnect(ab) ==> Reaching(ba) == [])
    && (alive && !HasConnect(ab) ==>
          && |posted| == |arrived| > 0
          && Get(received, posted[|posted| - 1]) + Reaching(ba) <= Get(sent, arrived[|arrived| - 1])
          && (!HasClose(ba) ==> Get(received, posted[|posted| - 1]) + Reaching(ba) == Get(sent, arrived[|arrived| - 1])))
  }

  ghost predicate BackOk(bus: Bus, fdMaxA: nat, fdMaxB: nat, t: Trace) {
    && BusOk(bus, fdMaxA, fdMaxB, t)
    && Returning(SomeAlive(bus.a), bus.ab, bus.ba, t.posted, t.arrived, t.sa.received, t.sb.sent)
  }

  lemma CountsMatch(bus: Bus, fdMaxA: nat, fdMaxB: nat, t: Trace)
    requires BusOk(bus, fdMaxA, fdMaxB, t)
    ensures |t.arrived| <= |t.posted| && (HasConnect(bus.ab) <==> |t.arrived| < |t.posted|)
    ensures bus.ab != [] && bus.ab[0].Connect? ==>
              |t.arrived| < |t.posted| && (!HasConnect(bus.ab[1..]) ==> |t.arrived| + 1 == |t.posted|)
  {
    hide Inv, Split, Latest, StreamsOk;
    RunsWithoutConnect(t.in_, bus.ab);
    RunsWithConnect(t.in_, bus.ab);
    SplitGrows(t.in_, bus.ab);
    if bus.ab != [] && bus.ab[0].Connect? {
      SplitOne(t.in_, Connect);
      SplitGrows(t.in_ + [bus.ab[0]], bus.ab[1..]);
      RunsWithoutConnect(t.in_ + [bus.ab[0]], bus.ab[1..]);
      assert t.in_ + bus.ab == (t.in_ + [bus.ab[0]]) + bus.ab[1..];
    }
  }

  // ----- the connector's moves -----

  lemma NothingReceivedYet(n: Node, fdMax: nat, op: Op, s: Streams)
    requires StreamsOk(n, s) && Opening(op) && NewFd(n, fdMax).Found?
    requires op.OpClose? ==> forall fd :: fd in op.order ==> fd in n.conns
    ensures var id := IdOf(Step(n, fdMax, op), NewFd(n, fdMax).fd);
            Get(s.received, id) == [] && Get(s.sent, id) == []
  {
    hide Step, NewFd, Exact;
    StepOpens(n, fdMax, op);
  }

  /** A new connection, with no answer under way to it. */
  lemma ConnectorOpens(ab: seq<Frame>, more: seq<Frame>, ba: seq<Frame>, posted: seq<Id>, id: Id, arrived: seq<Id>,
                       before: map<Id, Bytes>, received: map<Id, Bytes>, sent: map<Id, Bytes>, was: bool, alive: bool)
    requires Returning(was, ab, ba, posted, arrived, before, sent) && Reaching(ba) == [] && |arrived| <= |posted|
    requires HasConnect(more) && Get(before, id) == [] && forall x: Id :: Get(received, x) == Get(before, x)
    ensures Returning(alive, ab + more, ba, posted + [id], arrived, received, sent)
  {
    hide Get, Reaching, HasClose;
    HasConnectBehind(ab, more);
  }

  lemma HasConnectBehind(ab: seq<Frame>, more: seq<Frame>)
    ensures HasConnect(more) ==> HasConnect(ab + more)
  {
    if i :| 0 <= i < |more| && more[i].Connect? {
      assert (ab + more)[|ab| + i].Connect?;
    }
  }

  /** Nothing opened and nothing received. */
  lemma ConnectorRests(ab: seq<Frame>, more: seq<Frame>, ba: seq<Frame>, ba': seq<Frame>, posted: seq<Id>, arrived: seq<Id>,
                       before: map<Id, Bytes>, received: map<Id, Bytes>, sent: map<Id, Bytes>, was: bool, alive: bool)
    requires Returning(was, ab, ba, posted, arrived, before, sent) && (alive ==> was)
    requires alive ==> Reaching(ba') == Reaching(ba) && (HasClose(ba') <==> HasClose(ba))
    requires !HasConnect(more) && forall x: Id :: Get(received, x) == Get(before, x)
    ensures Returning(alive, ab + more, ba', posted, arrived, received, sent)
  {
    hide Get, Reaching, HasClose, HasConnect;
    NoNewConnect(ab, more);
  }

  /** What an operation of the connector other than taking in data does to both channels and streams. */
  lemma ConnectorMoves(bus: Bus, fdMaxA: nat, fdMaxB: nat, op: Op, t: Trace, ba: seq<Frame>)
    requires BackOk(bus, fdMaxA, fdMaxB, t) && Allowed(bus.a, op) && ByConnector(op) && !BringsData(op)
    requires op.OpConnect? && NewFd(bus.a, fdMaxA).Found? ==> Reaching(bus.ba) == []
    requires if op.OpFrame? then bus.ba != [] && op.frame == bus.ba[0] && ba == bus.ba[1..] else ba == bus.ba
    ensures op.OpClose? ==> forall fd :: fd in op.order ==> fd in bus.a.conns
    ensures var a := Step(bus.a, fdMaxA, op);
            Returning(SomeAlive(a), bus.ab + Posts(a.log, ACCEPTOR), ba, t.posted + Opened(bus.a, fdMaxA, op, a), t.arrived,
                      Note(bus.a, op, a, t.sa).received, t.sb.sent)
  {
    hide Inv, Allowed, Step, StreamsOk, Posts, Note, NewFd, Split, Get, Reaching, HasClose, AcceptorOk, Posting, Returning, HasConnect, Latest;
    StepKeeps(bus.a, fdMaxA, op);
    CountsMatch(bus, fdMaxA, fdMaxB, t);
    var a := Step(bus.a, fdMaxA, op);
    var more, s := Posts(a.log, ACCEPTOR), Note(bus.a, op, a, t.sa);
    ReceivedStays(bus.a, op, a, t.sa);
    if op.OpConnect? && NewFd(bus.a, fdMaxA).Found? {
      ConnectPosts(bus.a, fdMaxA, ACCEPTOR, op.cb, []);
      EndsInConnect(more);
      NothingReceivedYet(bus.a, fdMaxA, op, t.sa);
      ConnectorOpens(bus.ab, more, ba, t.posted, IdOf(a, NewFd(bus.a, fdMaxA).fd), t.arrived, t.sa.received, s.received,
                     t.sb.sent, SomeAlive(bus.a), SomeAlive(a));
    } else {
      assert t.posted + [] == t.posted;
      QuietPosts(bus.a, fdMaxA, op);
      NotRevived(bus.a, fdMaxA, op);
      if op.OpFrame? {
        HeadOff(bus.ba);
        CloseKills(bus.a, fdMaxA);
      }
      ConnectorRests(bus.ab, more, bus.ba, ba, t.posted, t.arrived, t.sa.received, s.received, t.sb.sent, SomeAlive(bus.a), SomeAlive(a));
    }
  }

  /** After a close frame, nothing is alive. */
  lemma CloseKills(n: Node, fdMax: nat)
    requires Inv(n, fdMax) && AllTo(n, ACCEPTOR)
    ensures !SomeAlive(Step(n, fdMax, OpFrame(ACCEPTOR, Close)))
  {
    hide Inv, Step;
    var op := OpFrame(ACCEPTOR, Close);
    forall fd
      ensures !Live(Step(n, fdMax, op), fd)
    {
      LivesExactly(n, fdMax, op, fd);
    }
  }

  lemma EndsInConnect(frames: seq<Frame>)
    requires frames != [] && frames[|frames| - 1] == Connect
    ensures HasConnect(frames)
  {
  }

  lemma NotRevived(n: Node, fdMax: nat, op: Op)
    requires !(Opening(op) && NewFd(n, fdMax).Found?)
    requires op.OpClose? ==> forall fd :: fd in op.order ==> fd in n.conns
    ensures SomeAlive(Step(n, fdMax, op)) ==> SomeAlive(n)
  {
    hide Step, NewFd;
    StepOpens(n, fdMax, op);
    AliveStays(n, fdMax, op);
  }

  /** Only an operation that opens a connection posts a connect. */
  lemma QuietPosts(n: Node, fdMax: nat, op: Op)
    requires Inv(n, fdMax) && AllTo(n, ACCEPTOR) && Allowed(n, op) && ByConnector(op) && !(op.OpConnect? && NewFd(n, fdMax).Found?)
    requires op.OpClose? ==> forall fd :: fd in op.order ==> fd in n.conns
    ensures !HasConnect(Posts(Step(n, fdMax, op).log, ACCEPTOR))
  {
    hide Inv, Allowed, Step, Posts, NewFd;
    if op.OpSend? {
      SendPosts(n, fdMax, ACCEPTOR, op.fd, op.data, op.postOk);
    } else if op.OpConnect? {
      FullPostsNothing(n, fdMax, op.cb);
    } else {
      StepTame(n, fdMax, ACCEPTOR, op);
      PlainPosts(Step(n, fdMax, op).log, ACCEPTOR);
    }
  }

  lemma FullPostsNothing(n: Node, fdMax: nat, cb: Callback)
    requires NewFd(n, fdMax).Full?
    ensures Posts(Step(n, fdMax, OpConnect(ACCEPTOR, cb)).log, ACCEPTOR) == []
  {
    hide NewFd;
    PeerBus.SameNumbers(n, fdMax);
    assert [ConnectDone(cb, -1)][1..] == [];
  }

  lemma NoNewConnect(frames: seq<Frame>, more: seq<Frame>)
    ensures !HasConnect(more) ==> (HasConnect(frames + more) <==> HasConnect(frames))
  {
    assert forall i :: 0 <= i < |frames| ==> (frames + more)[i] == frames[i];
  }

  lemma HeadOff(frames: seq<Frame>)
    requires frames != []
    ensures !frames[0].Close? ==>
              && Reaching(frames) == (if frames[0].Data? then frames[0].bytes else []) + Reaching(frames[1..])
              && (!frames[0].Data? ==> Reaching(frames) == Reaching(frames[1..]))
              && (HasClose(frames) <==> HasClose(frames[1..]))
    ensures HasConnect(frames) <==> frames[0].Connect? || HasConnect(frames[1..])
  {
    assert [] + Reaching(frames[1..]) == Reaching(frames[1..]);
    assert forall i :: 0 <= i < |frames[1..]| ==> frames[1..][i] == frames[i + 1];
    if i :| 0 <= i < |frames| && frames[i].Connect? {
      assert i > 0 ==> frames[1..][i - 1].Connect?;
    }
  }

  /** Data leaves the channel for the live connection that has its partner. */
  lemma DataArrives(ab: seq<Frame>, more: seq<Frame>, ba: seq<Frame>, posted: seq<Id>, arrived: seq<Id>,
                    before: map<Id, Bytes>, received: map<Id, Bytes>, sent: map<Id, Bytes>, alive: bool)
    requires Returning(true, ab, ba, posted, arrived, before, sent) && Distinct(posted) && !HasConnect(ab)
    requires ba != [] && ba[0].Data? && !HasConnect(more)
    requires forall x: Id :: Get(received, x) ==
               if x == posted[|posted| - 1] then Get(before, x) + ba[0].bytes else Get(before, x)
    ensures Returning(alive, ab + more, ba[1..], posted, arrived, received, sent)
  {
    hide Get, Reaching, HasClose, HasConnect;
    HeadOff(ba);
    NoNewConnect(ab, more);
    var last := |posted| - 1;
    var was, now, goal := Get(before, posted[last]), Get(received, posted[last]), Get(sent, arrived[last]);
    Exchanged(was, now, ba[0].bytes, Reaching(ba[1..]), goal);
    forall k | 0 <= k < last
      ensures Get(received, posted[k]) <= SentTo(sent, arrived, k)
    {
      assert posted[k] != posted[last];
    }
  }

  /** Data finds nothing alive, or is none at all. */
  lemma NothingArrives(ab: seq<Frame>, more: seq<Frame>, ba: seq<Frame>, posted: seq<Id>, arrived: seq<Id>,
                       before: map<Id, Bytes>, received: map<Id, Bytes>, sent: map<Id, Bytes>, was: bool, alive: bool)
    requires Returning(was, ab, ba, posted, arrived, before, sent) && (alive ==> was) && (was ==> HasConnect(ab) && posted != [])
    requires ba != [] && ba[0].Data? && !HasConnect(more)
    requires forall x: Id :: Get(received, x) ==
               if was && x == posted[|posted| - 1] then Get(before, x) + ba[0].bytes else Get(before, x)
    ensures Returning(alive, ab + more, ba[1..], posted, arrived, received, sent)
  {
    hide Get, Reaching, HasClose, HasConnect;
    HeadOff(ba);
    if was {
      assert ba[0].bytes == [] && Reaching(ba[1..]) == [];
      assert Get(before, posted[|posted| - 1]) + [] == Get(before, posted[|posted| - 1]);
    }
    ConnectorRests(ab, more, ba, ba[1..], posted, arrived, before, received, sent, was, alive);
  }

  /** Data taken in by the connector moves from the channel to its live connection, if it has one. */
  lemma ConnectorTakesIn(bus: Bus, fdMaxA: nat, fdMaxB: nat, t: Trace)
    requires BackOk(bus, fdMaxA, fdMaxB, t) && bus.ba != [] && bus.ba[0].Data?
    ensures var op := OpFrame(ACCEPTOR, bus.ba[0]);
            var a := Step(bus.a, fdMaxA, op);
            Returning(SomeAlive(a), bus.ab + Posts(a.log, ACCEPTOR), bus.ba[1..], t.posted + Opened(bus.a, fdMaxA, op, a), t.arrived,
                      Note(bus.a, op, a, t.sa).received, t.sb.sent)
  {
    hide Inv, Step, StreamsOk, Posts, Note, NewFd, Split, Get, Reaching, HasClose, AcceptorOk, Posting, HasConnect, Returning, Extend;
    var op := OpFrame(ACCEPTOR, bus.ba[0]);
    var a := Step(bus.a, fdMaxA, op);
    QuietPosts(bus.a, fdMaxA, op);
    NotRevived(bus.a, fdMaxA, op);
    assert t.posted + [] == t.posted;
    DataNotes(bus.a, op, a, t.sa);
    FoundWhenAlive(bus.a, fdMaxA);
    var more, received := Posts(a.log, ACCEPTOR), Note(bus.a, op, a, t.sa).received;
    if SomeAlive(bus.a) && !HasConnect(bus.ab) {
      DataArrives(bus.ab, more, bus.ba, t.posted, t.arrived, t.sa.received, received, t.sb.sent, SomeAlive(a));
    } else {
      NothingArrives(bus.ab, more, bus.ba, t.posted, t.arrived, t.sa.received, received, t.sb.sent, SomeAlive(bus.a), SomeAlive(a));
    }
  }

  lemma FoundWhenAlive(n: Node, fdMax: nat)
    requires Inv(n, fdMax) && AllTo(n, ACCEPTOR)
    ensures SomeAlive(n) <==> ACCEPTOR in n.byRemote
    ensures ACCEPTOR in n.byRemote ==> Live(n, n.byRemote[ACCEPTOR])
  {
  }

  lemma Exchanged(was: Bytes, now: Bytes, bytes: Bytes, rest: Bytes, sent: Bytes)
    requires was + (bytes + rest) <= sent && now == was + bytes
    ensures now <= sent && now + rest <= sent && (was + (bytes + rest) == sent ==> now + rest == sent)
  {
    assert now + rest == was + (bytes + rest);
  }

  // ----- the acceptor's moves -----

  /** What an operation of the acceptor does to its channel and to what it has sent. */
  lemma AcceptorMoves(bus: Bus, fdMaxA: nat, fdMaxB: nat, op: Op, t: Trace, ab: seq<Frame>)
    requires BackOk(bus, fdMaxA, fdMaxB, t) && Allowed(bus.b, op) && ByAcceptor(bus.b, fdMaxB, op)
    requires TakenBy(bus.b, op) != [] ==> !(SomeAlive(bus.a) && HasConnect(bus.ab) && !HasClose(bus.ba))
    requires if op.OpFrame? then bus.ab != [] && op.frame == bus.ab[0] && ab == bus.ab[1..] else ab == bus.ab
    ensures op.OpClose? ==> forall fd :: fd in op.order ==> fd in bus.b.conns
    ensures var b := Step(bus.b, fdMaxB, op);
            Returning(SomeAlive(bus.a), ab, bus.ba + Posts(b.log, CONNECTOR), t.posted, t.arrived + Opened(bus.b, fdMaxB, op, b),
                      t.sa.received, Note(bus.b, op, b, t.sb).sent)
  {
    hide Inv, Allowed, Step, StreamsOk, Posts, Note, NewFd, Split, Get, Reaching, HasClose, ConnectorOk, Receiving, HasConnect, Returning, Latest;
    StepKeeps(bus.b, fdMaxB, op);
    CountsMatch(bus, fdMaxA, fdMaxB, t);
    var b := Step(bus.b, fdMaxB, op);
    var more := Posts(b.log, CONNECTOR);
    NoteSent(bus.b, op, b, t.sb);
    if op.OpFrame? {
      HeadOff(bus.ab);
    }
    if op.OpSend? {
      SendPosts(bus.b, fdMaxB, CONNECTOR, op.fd, op.data, op.postOk);
      assert t.arrived + [] == t.arrived;
      AcceptorAnswers(bus, fdMaxA, fdMaxB, op, t, Note(bus.b, op, b, t.sb).sent);
    } else {
      StepTame(bus.b, fdMaxB, CONNECTOR, op);
      PlainPosts(b.log, CONNECTOR);
      PlainReachesNothing(more);
      ReachingConcat(bus.ba, more);
      StepOpens(bus.b, fdMaxB, op);
      if Opened(bus.b, fdMaxB, op, b) == [] {
        assert t.arrived + [] == t.arrived;
        AcceptorRests(bus, t, ab, bus.ba + more, Note(bus.b, op, b, t.sb).sent);
      } else {
        NothingReceivedYet(bus.b, fdMaxB, op, t.sb);
        AcceptorIsJoined(bus, t, ab, bus.ba + more, Opened(bus.b, fdMaxB, op, b)[0], Note(bus.b, op, b, t.sb).sent);
      }
    }
  }

  /** Nothing opened and nothing sent. */
  lemma AcceptorRests(bus: Bus, t: Trace, ab: seq<Frame>, ba: seq<Frame>, sent: map<Id, Bytes>)
    requires Returning(SomeAlive(bus.a), bus.ab, bus.ba, t.posted, t.arrived, t.sa.received, t.sb.sent)
    requires (HasConnect(ab) <==> HasConnect(bus.ab)) && Reaching(ba) == Reaching(bus.ba) && (HasClose(bus.ba) ==> HasClose(ba))
    requires forall x: Id :: Get(sent, x) == Get(t.sb.sent, x)
    ensures Returning(SomeAlive(bus.a), ab, ba, t.posted, t.arrived, t.sa.received, sent)
  {
    hide Get, Reaching, HasClose, HasConnect;
  }

  /** An answer goes behind the data under way to the connection it answers. */
  lemma AcceptorAnswers(bus: Bus, fdMaxA: nat, fdMaxB: nat, op: Op, t: Trace, sent: map<Id, Bytes>)
    requires BackOk(bus, fdMaxA, fdMaxB, t) && op.OpSend? && |t.arrived| <= |t.posted|
    requires TakenBy(bus.b, op) != [] ==> Live(bus.b, op.fd) && !(SomeAlive(bus.a) && HasConnect(bus.ab) && !HasClose(bus.ba))
    requires forall id: Id :: Get(sent, id) == if id == IdOf(bus.b, op.fd) then Get(t.sb.sent, id) + TakenBy(bus.b, op) else Get(t.sb.sent, id)
    ensures Returning(SomeAlive(bus.a), bus.ab, bus.ba + (if TakenBy(bus.b, op) == [] then [] else [Data(TakenBy(bus.b, op))]), t.posted, t.arrived,
                      t.sa.received, sent)
  {
    hide Inv, StreamsOk, Get, Reaching, HasClose, ConnectorOk, Receiving, TakenBy, HasConnect;
    var taken := TakenBy(bus.b, op);
    if taken == [] {
      assert bus.ba + [] == bus.ba;
      forall id
        ensures Get(sent, id) == Get(t.sb.sent, id)
      {
        assert Get(t.sb.sent, id) + [] == Get(t.sb.sent, id);
      }
    } else {
      ReachingConcat(bus.ba, [Data(taken)]);
      ReachingOne(taken);
      assert t.arrived[|t.arrived| - 1] == IdOf(bus.b, op.fd);
      assert Reaching(bus.ba) + [] == Reaching(bus.ba);
      if SomeAlive(bus.a) && !HasConnect(bus.ab) {
        var r := Get(t.sa.received, t.posted[|t.posted| - 1]);
        assert r + (Reaching(bus.ba) + taken) == (r + Reaching(bus.ba)) + taken;
        Longer(r + Reaching(bus.ba), Get(t.sb.sent, t.arrived[|t.arrived| - 1]), taken);
      }
      forall k | 0 <= k < |t.posted|
        ensures Get(t.sa.received, t.posted[k]) <= SentTo(sent, t.arrived, k)
      {
        Longer(Get(t.sa.received, t.posted[k]), SentTo(t.sb.sent, t.arrived, k), taken);
      }
    }
  }

  lemma ReachingOne(bytes: Bytes)
    ensures Reaching([Data(bytes)]) == bytes && !HasClose([Data(bytes)])
  {
    assert [Data(bytes)][1..] == [];
  }

  /** A connect frame that is delivered gives the next connection its partner; nothing was sent on it yet. */
  lemma AcceptorIsJoined(bus: Bus, t: Trace, ab: seq<Frame>, ba: seq<Frame>, id: Id, sent: map<Id, Bytes>)
    requires Returning(SomeAlive(bus.a), bus.ab, bus.ba, t.posted, t.arrived, t.sa.received, t.sb.sent)
    requires bus.ab != [] && bus.ab[0].Connect? && ab == bus.ab[1..] && |t.arrived| < |t.posted|
    requires Reaching(ba) == Reaching(bus.ba)
    requires Get(t.sb.sent, id) == [] && forall x: Id :: Get(sent, x) == Get(t.sb.sent, x)
    requires SomeAlive(bus.a) && !HasConnect(ab) ==> |t.posted| == |t.arrived| + 1
    ensures Returning(SomeAlive(bus.a), ab, ba, t.posted, t.arrived + [id], t.sa.received, sent)
  {
    hide Get, Reaching, HasClose;
    HeadOff(bus.ab);
    assert Get(t.sa.received, t.posted[|t.arrived|]) <= SentTo(t.sb.sent, t.arrived, |t.arrived|);
  }

  // ----- both -----

  lemma BackStep(bus: Bus, fdMaxA: nat, fdMaxB: nat, move: Move, t: Trace)
    requires BackOk(bus, fdMaxA, fdMaxB, t) && Can(bus, move) && HasNumber(bus, fdMaxB, move) && TakesTurn(bus, fdMaxA, move)
    ensures BackOk(Next(bus, fdMaxA, fdMaxB, move), fdMaxA, fdMaxB, Observe(bus, fdMaxA, fdMaxB, move, t))
  {
    hide ConnectorOk, AcceptorOk, Step, Posts, Note, Opened, NewFd, Allowed, Returning, HasConnect, Reaching, HasClose, TakenBy;
    BusStep(bus, fdMaxA, fdMaxB, move, t);
    var op := Acting(bus, move);
    if move.AtConnector? {
      ConnectorMoves(bus, fdMaxA, fdMaxB, op, t, bus.ba);
    } else if move.ToConnector? {
      FrameAllowed(bus.a, op);
      if bus.ba[0].Data? {
        ConnectorTakesIn(bus, fdMaxA, fdMaxB, t);
      } else {
        ConnectorMoves(bus, fdMaxA, fdMaxB, op, t, bus.ba[1..]);
      }
    } else {
      FrameAllowed(bus.b, op);
      FramesTakeNothing(bus.b, op);
      AcceptorMoves(bus, fdMaxA, fdMaxB, op, t, if move.ToAcceptor? then bus.ab[1..] else bus.ab);
    }
  }

  lemma FramesTakeNothing(n: Node, op: Op)
    ensures op.OpFrame? ==> TakenBy(n, op) == []
  {
  }

  /** A run in which every answer is complete before its connection is replaced. */
  ghost predicate TakesTurns(bus: Bus, fdMaxA: nat, fdMaxB: nat, moves: seq<Move>)
    requires Possible(bus, fdMaxA, fdMaxB, moves)
    decreases |moves|
  {
    moves == [] || (TakesTurn(bus, fdMaxA, moves[0]) && TakesTurns(Next(bus, fdMaxA, fdMaxB, moves[0]), fdMaxA, fdMaxB, moves[1..]))
  }

  ghost predicate BackIsolated(t: Trace) {
    forall k :: 0 <= k < |t.posted| ==> Get(t.sa.read, t.posted[k]) <= SentTo(t.sb.sent, t.arrived, k)
  }

  lemma {:induction false} RunBack(bus: Bus, fdMaxA: nat, fdMaxB: nat, moves: seq<Move>, t: Trace)
    requires BackOk(bus, fdMaxA, fdMaxB, t) && Possible(bus, fdMaxA, fdMaxB, moves)
    requires Fair(bus, fdMaxA, fdMaxB, moves) && TakesTurns(bus, fdMaxA, fdMaxB, moves)
    ensures BackIsolated(Traced(bus, fdMaxA, fdMaxB, moves, t))
    decreases |moves|
  {
    hide BackOk, Next, Observe, Can, HasNumber, TakesTurn, BackIsolated;
    if moves == [] {
      OkIsBackIsolated(bus, fdMaxA, fdMaxB, t);
    } else {
      BackStep(bus, fdMaxA, fdMaxB, moves[0], t);
      RunBack(Next(bus, fdMaxA, fdMaxB, moves[0]), fdMaxA, fdMaxB, moves[1..], Observe(bus, fdMaxA, fdMaxB, moves[0], t));
    }
  }

  lemma OkIsBackIsolated(bus: Bus, fdMaxA: nat, fdMaxB: nat, t: Trace)
    requires BackOk(bus, fdMaxA, fdMaxB, t)
    ensures BackIsolated(t)
  {
    hide Inv, Latest, AcceptorOk, Posting, Get, SentTo, Exact;
    assert StreamsOk(bus.a, t.sa);
    forall k | 0 <= k < |t.posted|
      ensures Get(t.sa.read, t.posted[k]) <= SentTo(t.sb.sent, t.arrived, k)
    {
      assert Get(t.sa.read, t.posted[k]) <= Get(t.sa.received, t.posted[k]);
    }
  }

  lemma QuietIsBackOk(fdMaxA: nat, fdMaxB: nat)
    ensures BackOk(Quiet, fdMaxA, fdMaxB, Unseen)
  {
    hide BusOk;
    QuietOk(fdMaxA, fdMaxB);
  }

  /**
    When the two take turns, what the connector reads on its k-th posted connection is a prefix of what
    `send` took on the acceptor's k-th connection, and nothing while that one has not been opened.
   */
  lemma AnswersStayApart(fdMaxA: nat, fdMaxB: nat, moves: seq<Move>)
    requires Possible(Quiet, fdMaxA, fdMaxB, moves) && Fair(Quiet, fdMaxA, fdMaxB, moves) && TakesTurns(Quiet, fdMaxA, fdMaxB, moves)
    ensures BackIsolated(Traced(Quiet, fdMaxA, fdMaxB, moves, Unseen))
  {
    hide BackOk, Possible, Fair, TakesTurns, Traced, BackIsolated;
    QuietIsBackOk(fdMaxA, fdMaxB);
    RunBack(Quiet, fdMaxA, fdMaxB, moves, Unseen);
  }
}
