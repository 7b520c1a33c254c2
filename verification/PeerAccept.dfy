/**
  Incoming connections and accept calls pair up first come, first served: the k-th accept that
  completes is the k-th that was called, and it gets the k-th connection that did not die waiting.
 */
module PeerAccept {
  import opened Arith
  import opened Option
  import opened PeerModel
  import opened PeerInvariant

  /** A connection is a number together with how often that number had been opened by then. */
  datatype Id = Id(fd: nat, epoch: nat)

  function IdOf(n: Node, fd: nat): Id { Id(fd, Count(n.opens, fd)) }

  function Ids(n: Node, fds: seq<nat>): (ids: seq<Id>)
    ensures |ids| == |fds| && forall i :: 0 <= i < |fds| ==> ids[i] == IdOf(n, fds[i])
  {
    if fds == [] then [] else [IdOf(n, fds[0])] + Ids(n, fds[1..])
  }

  /** What has happened so far: accept calls, incoming connections, completed accepts, and the
      connections that died before anyone accepted them. */
  datatype History = History(calls: seq<Callback>, arrivals: seq<Id>, settled: seq<(Callback, Id)>, gone: set<Id>)

  /** The members of a list that are not in `gone`, in order. */
  function Keep<T(==)>(s: seq<T>, gone: set<T>): seq<T> {
    if s == [] then [] else (if s[0] in gone then [] else [s[0]]) + Keep(s[1..], gone)
  }

  function Callers(settled: seq<(Callback, Id)>): (cbs: seq<Callback>)
    ensures |cbs| == |settled| && forall i :: 0 <= i < |settled| ==> cbs[i] == settled[i].0
  {
    if settled == [] then [] else [settled[0].0] + Callers(settled[1..])
  }

  function Takers(settled: seq<(Callback, Id)>): (ids: seq<Id>)
    ensures |ids| == |settled| && forall i :: 0 <= i < |settled| ==> ids[i] == settled[i].1
  {
    if settled == [] then [] else [settled[0].1] + Takers(settled[1..])
  }

  /** The accepts an operation completed, with the connections it handed over. */
  function Served(m: Node, log: seq<Output>): seq<(Callback, Id)> {
    if log == [] then []
    else (if log[0].AcceptDone? && log[0].fd >= 0 then [(log[0].cb, IdOf(m, log[0].fd))] else []) + Served(m, log[1..])
  }

  ghost function Vanished(n: Node, m: Node): set<Id> {
    set i | 0 <= i < |n.readyFds| && n.readyFds[i] !in m.readyFds :: IdOf(n, n.readyFds[i])
  }

  ghost function Record(n: Node, fdMax: nat, op: Op, m: Node, h: History): History {
    History(
      if op.OpAccept? then h.calls + [op.cb] else h.calls,
      if op.OpFrame? && op.frame.Connect? && NewFd(n, fdMax).Found? then h.arrivals + [IdOf(m, NewFd(n, fdMax).fd)] else h.arrivals,
      h.settled + Served(m, m.log),
      if op.OpAccept? then h.gone else h.gone + Vanished(n, m))
  }

  ghost predicate Alive(n: Node, id: Id) { Live(n, id.fd) && Count(n.opens, id.fd) == id.epoch }

  ghost predicate Paired(n: Node, h: History) {
    && h.calls == Callers(h.settled) + n.acceptWaiters
    && Takers(h.settled) + Ids(n, n.readyFds) == Keep(h.arrivals, h.gone)
    && Distinct(h.arrivals)
    && (forall id :: id in h.arrivals ==> id.epoch <= Count(n.opens, id.fd))
    && (forall id :: id in h.gone ==> id in h.arrivals && !Alive(n, id))
  }

  // ----- lists -----

  lemma {:induction false} KeepConcat<T>(a: seq<T>, b: seq<T>, gone: set<T>)
    ensures Keep(a + b, gone) == Keep(a, gone) + Keep(b, gone)
  {
    if a == [] {
      assert a + b == b;
    } else {
      assert (a + b)[1..] == a[1..] + b;
      KeepConcat(a[1..], b, gone);
    }
  }

  lemma {:induction false} KeepTwice<T>(s: seq<T>, g1: set<T>, g2: set<T>)
    ensures Keep(s, g1 + g2) == Keep(Keep(s, g1), g2)
  {
    if s != [] {
      KeepTwice(s[1..], g1, g2);
      var kept := Keep(s[1..], g1);
      assert [] + kept == kept && ([s[0]] + kept)[1..] == kept;
    }
  }

  lemma {:induction false} KeepNone<T>(s: seq<T>, gone: set<T>)
    requires forall x :: x in s ==> x !in gone
    ensures Keep(s, gone) == s
  {
    if s != [] {
      assert s[0] in s && forall x :: x in s[1..] ==> x in s;
      KeepNone(s[1..], gone);
    }
  }

  lemma {:induction false} KeepMembers<T>(s: seq<T>, gone: set<T>)
    ensures forall x :: x in Keep(s, gone) <==> x in s && x !in gone
    ensures Distinct(s) ==> Distinct(Keep(s, gone))
  {
    if s != [] {
      KeepMembers(s[1..], gone);
      assert Distinct(s) ==> Distinct(s[1..]) && s[0] !in s[1..];
    }
  }

  lemma {:induction false} WithoutIsKeep(fds: seq<nat>, fd: nat)
    requires Distinct(fds)
    ensures Without(fds, fd) == Keep(fds, {fd})
  {
    if fds != [] {
      assert Distinct(fds[1..]);
      if fds[0] == fd {
        KeepNone(fds[1..], {fd});
      } else {
        WithoutIsKeep(fds[1..], fd);
      }
    }
  }

  lemma {:induction false} KeepIds(n: Node, fds: seq<nat>, gone: set<nat>, goneIds: set<Id>)
    requires forall i :: 0 <= i < |fds| ==> (fds[i] in gone <==> IdOf(n, fds[i]) in goneIds)
    ensures Keep(Ids(n, fds), goneIds) == Ids(n, Keep(fds, gone))
  {
    if fds != [] {
      KeepIds(n, fds[1..], gone, goneIds);
    }
  }

  lemma IdsFrame(n: Node, m: Node, fds: seq<nat>)
    requires forall i :: 0 <= i < |fds| ==> Count(m.opens, fds[i]) == Count(n.opens, fds[i])
    ensures Ids(m, fds) == Ids(n, fds)
  {
  }

  lemma {:induction false} ServedConcat(m: Node, a: seq<Output>, b: seq<Output>)
    ensures Served(m, a + b) == Served(m, a) + Served(m, b)
  {
    if a == [] {
      assert a + b == b;
    } else {
      assert (a + b)[1..] == a[1..] + b;
      ServedConcat(m, a[1..], b);
    }
  }

  lemma {:induction false} ServedNone(m: Node, log: seq<Output>)
    requires forall i :: 0 <= i < |log| ==> !log[i].AcceptDone?
    ensures Served(m, log) == []
  {
    if log != [] {
      ServedNone(m, log[1..]);
    }
  }

  // ----- what operations do to the waiting lists -----

  /** Waiters stay, and the ready connections that disappear are dead. */
  ghost predicate Thins(n: Node, m: Node) {
    && m.acceptWaiters == n.acceptWaiters
    && (exists gone: set<nat> :: m.readyFds == Keep(n.readyFds, gone))
    && (forall fd :: fd in n.readyFds && fd !in m.readyFds ==> !Live(m, fd))
    && (forall fd :: fd in m.readyFds ==> Count(m.opens, fd) == Count(n.opens, fd))
  }

  ghost predicate QuietFrom(n: Node, m: Node) {
    n.log <= m.log && forall i :: |n.log| <= i < |m.log| ==> !m.log[i].AcceptDone?
  }

  lemma TombstoneLog(n: Node, fd: nat)
    requires fd in n.conns
    ensures QuietFrom(n, Tombstone(n, fd))
  {
  }

  lemma TombstoneThins(n: Node, fdMax: nat, fd: nat)
    requires Inv(n, fdMax) && fd in n.conns
    ensures Thins(n, Tombstone(n, fd)) && QuietFrom(n, Tombstone(n, fd))
  {
    hide Keep, Bijection, NumbersOk, QueuesOk, Unlinked, WakeFalse, AcceptedFalse, Without;
    KeepMembers(n.readyFds, {fd});
    TombstoneLog(n, fd);
    if Live(n, fd) {
      WithoutIsKeep(n.readyFds, fd);
    } else {
      KeepNone(n.readyFds, {});
    }
  }

  lemma SupersedeThins(n: Node, fdMax: nat, remote: NodeId)
    requires Inv(n, fdMax)
    ensures Thins(n, Supersede(n, remote)) && QuietFrom(n, Supersede(n, remote))
  {
    hide Keep, Tombstone;
    if remote in n.byRemote {
      TombstoneThins(n, fdMax, n.byRemote[remote]);
    } else {
      KeepNone(n.readyFds, {});
    }
  }

  lemma CreateConnThins(n: Node, fdMax: nat, fd: nat, remote: NodeId)
    requires Inv(n, fdMax) && fd !in n.conns && fd < fdMax
    ensures Thins(n, CreateConn(n, fd, remote)) && QuietFrom(n, CreateConn(n, fd, remote))
  {
    hide Keep, Supersede, NumbersOk, QueuesOk;
    SupersedeThins(n, fdMax, remote);
    SupersedeKeeps(n, fdMax, remote);
    KeepShrinks(n, Supersede(n, remote));
    assert forall x :: x in n.readyFds ==> Live(n, x);
  }

  lemma KeepShrinks(n: Node, m: Node)
    requires Thins(n, m)
    ensures forall fd :: fd in m.readyFds ==> fd in n.readyFds
  {
    var gone: set<nat> :| m.readyFds == Keep(n.readyFds, gone);
    KeepMembers(n.readyFds, gone);
  }

  lemma {:induction false} TombstoneAllThins(n: Node, fdMax: nat, order: seq<nat>)
    requires Inv(n, fdMax) && forall fd :: fd in order ==> fd in n.conns
    ensures QuietFrom(n, TombstoneAll(n, order)) && TombstoneAll(n, order).acceptWaiters == n.acceptWaiters
    decreases |order|
  {
    hide Keep, Tombstone, Inv;
    if order != [] {
      TombstoneThins(n, fdMax, order[0]);
      TombstoneKeeps(n, fdMax, order[0]);
      TombstoneAllThins(Tombstone(n, order[0]), fdMax, order[1..]);
    }
  }

  lemma DoCloseThins(n: Node, fdMax: nat, order: seq<nat>)
    requires Inv(n, fdMax) && ToSet(order) == n.conns.Keys
    ensures forall fd :: fd in order ==> fd in n.conns
    ensures Thins(n, DoClose(n, order)) && QuietFrom(n, DoClose(n, order))
  {
    hide Tombstone, Inv;
    DoCloseKeeps(n, fdMax, order);
    TombstoneAllThins(n, fdMax, order);
    TombstoneAllOpens(n, order);
    AllDead(n, fdMax, order);
    KeepNothing(n.readyFds, ToSet(n.readyFds));
    assert DoClose(n, order).readyFds == Keep(n.readyFds, ToSet(n.readyFds));
  }

  lemma AllDead(n: Node, fdMax: nat, order: seq<nat>)
    requires Inv(n, fdMax) && ToSet(order) == n.conns.Keys && forall fd :: fd in order ==> fd in n.conns
    ensures forall fd :: !Live(TombstoneAll(n, order), fd)
  {
    TombstoneAllKeeps(n, fdMax, order);
    forall fd | fd in n.conns
      ensures fd in order
    {
      assert fd in ToSet(order);
    }
  }

  lemma {:induction false} KeepNothing<T>(s: seq<T>, gone: set<T>)
    requires forall i :: 0 <= i < |s| ==> s[i] in gone
    ensures Keep(s, gone) == []
  {
    if s != [] {
      KeepNothing(s[1..], gone);
    }
  }

  lemma UntouchedThins(n: Node, m: Node)
    requires m.acceptWaiters == n.acceptWaiters && m.readyFds == n.readyFds && m.opens == n.opens
    ensures Thins(n, m)
  {
    KeepNone(n.readyFds, {});
  }

  lemma {:induction false} WritesQuiet(cb: Callback, pieces: seq<Bytes>)
    ensures forall i :: 0 <= i < |Writes(cb, pieces)| ==> Writes(cb, pieces)[i].Wrote? && Writes(cb, pieces)[i].cb == cb
  {
    if pieces != [] {
      WritesQuiet(cb, pieces[1..]);
    }
  }

  predicate Rendezvous(op: Op) { op.OpAccept? || (op.OpFrame? && op.frame.Connect?) }

  lemma RecvThins(n: Node, fd: nat, r: Recv)
    ensures Thins(n, DoRecv(n, fd, r)) && QuietFrom(n, DoRecv(n, fd, r))
  {
    hide Thins, Drain, Writes;
    UntouchedThins(n, DoRecv(n, fd, r));
    if Settles(n, fd) {
      WritesQuiet(r.cb, Drain(n.conns[fd].queue, r.len).pieces);
    }
  }

  lemma FrameThins(n: Node, fdMax: nat, from: NodeId, frame: Frame)
    requires Inv(n, fdMax) && !frame.Connect?
    ensures Thins(n, HandleFrame(n, fdMax, from, frame)) && QuietFrom(n, HandleFrame(n, fdMax, from, frame))
  {
    hide Inv, Thins, Drain, Rest, Writes, Supersede;
    if frame.Close? {
      SupersedeThins(n, fdMax, from);
    } else {
      UntouchedThins(n, HandleFrame(n, fdMax, from, frame));
    }
    if frame.Data? && from in n.byRemote && n.byRemote[from] in n.conns {
      var conn := n.conns[n.byRemote[from]];
      if conn.wake.Some? {
        WritesQuiet(conn.wake.value.cb, Drain(Filled(conn, frame.bytes).queue, conn.wake.value.len).pieces);
      }
    }
  }

  /** Operations other than accepting and being connected to complete no accept. */
  lemma OthersThin(n: Node, fdMax: nat, op: Op)
    requires Inv(n, fdMax) && Allowed(n, op) && !Rendezvous(op) && n.log == []
    ensures op.OpClose? ==> forall fd :: fd in op.order ==> fd in n.conns
    ensures Thins(n, Step(n, fdMax, op)) && QuietFrom(n, Step(n, fdMax, op))
  {
    hide Inv, Thins, Keep, Supersede, DoConnect, DoRecv, DoCloseConnection, HandleFrame, Allowed, DoClose;
    match op
    case OpConnect(remote, cb) => ConnectThins(n, fdMax, remote, cb);
    case OpSend(fd, data, postOk) => UntouchedThins(n, DoSend(n, fd, data, postOk));
    case OpRecv(fd, r) => RecvThins(n, fd, r);
    case OpCloseConnection(fd) => CloseConnectionThins(n, fdMax, fd);
    case OpClose(order) => CloseThins(n, fdMax, op);
    case OpFrame(from, frame) => FrameThins(n, fdMax, from, frame);
    case _ =>
  }

  lemma CloseThins(n: Node, fdMax: nat, op: Op)
    requires Inv(n, fdMax) && op.OpClose? && Allowed(n, op)
    ensures forall fd :: fd in op.order ==> fd in n.conns
    ensures Thins(n, DoClose(n, op.order)) && QuietFrom(n, DoClose(n, op.order))
  {
    hide Inv, Thins, QuietFrom;
    DoCloseThins(n, fdMax, op.order);
  }

  lemma ConnectThins(n: Node, fdMax: nat, remote: NodeId, cb: Callback)
    requires Inv(n, fdMax)
    ensures Thins(n, DoConnect(n, fdMax, remote, cb)) && QuietFrom(n, DoConnect(n, fdMax, remote, cb))
  {
    hide Inv, Keep, CreateConn, NewFd;
    NewFdBounds(n, fdMax);
    match NewFd(n, fdMax)
    case Full(_) => UntouchedThins(n, DoConnect(n, fdMax, remote, cb));
    case Found(fd, next) =>
      NextKeeps(n, fdMax, next);
      CreateConnThins(n.(nextFd := next), fdMax, fd, remote);
      CreateConnKeeps(n.(nextFd := next), fdMax, fd, remote);
  }

  lemma CloseConnectionThins(n: Node, fdMax: nat, fd: nat)
    requires Inv(n, fdMax)
    ensures Thins(n, DoCloseConnection(n, fd)) && QuietFrom(n, DoCloseConnection(n, fd))
  {
    hide Inv, Keep, Tombstone;
    if fd !in n.conns {
      UntouchedThins(n, n);
    } else {
      var posted := n.(log := n.log + [Posted(n.conns[fd].remote, Close)]);
      LogKeeps(n, fdMax, posted.log);
      TombstoneThins(posted, fdMax, fd);
      if n.conns[fd].closed {
        UntouchedThins(n, DoCloseConnection(n, fd));
      }
    }
  }

  // ----- one step keeps the pairing -----

  lemma GoneStayGone(n: Node, fdMax: nat, op: Op, id: Id)
    requires op.OpClose? ==> forall x :: x in op.order ==> x in n.conns
    requires !Alive(n, id) && id.epoch <= Count(n.opens, id.fd)
    ensures !Alive(Step(n, fdMax, op), id) && id.epoch <= Count(Step(n, fdMax, op).opens, id.fd)
  {
    hide Step, NewFd;
    StepStays(n, fdMax, op);
    StepOpens(n, fdMax, op);
  }

  /** When ready connections only thin out, removing the vanished ones from the arrivals keeps the order. */
  lemma ThinPairs(n: Node, m: Node, h: History, gone': set<Id>)
    requires ReadyOk(n) && Paired(n, h) && Thins(n, m) && gone' == h.gone + Vanished(n, m)
    ensures Takers(h.settled) + Ids(m, m.readyFds) == Keep(h.arrivals, gone')
  {
    hide Live, Inv, Takers;
    var gone: set<nat> :| m.readyFds == Keep(n.readyFds, gone);
    var vanished, taken := Vanished(n, m), Takers(h.settled);
    KeepMembers(n.readyFds, gone);
    KeepTwice(h.arrivals, h.gone, vanished);
    KeepConcat(taken, Ids(n, n.readyFds), vanished);
    KeepMembers(h.arrivals, h.gone);
    TakenNotVanished(n, m, h);
    KeepNone(taken, vanished);
    forall i | 0 <= i < |n.readyFds|
      ensures n.readyFds[i] in gone <==> IdOf(n, n.readyFds[i]) in vanished
    {
    }
    KeepIds(n, n.readyFds, gone, vanished);
    IdsFrame(n, m, m.readyFds);
  }

  lemma TakenNotVanished(n: Node, m: Node, h: History)
    requires Paired(n, h)
    ensures forall id :: id in Takers(h.settled) ==> id !in Vanished(n, m)
  {
    var taken, waiting := Takers(h.settled), Ids(n, n.readyFds);
    KeepMembers(h.arrivals, h.gone);
    assert Distinct(taken + waiting);
    forall i, j | 0 <= i < |taken| && 0 <= j < |waiting|
      ensures taken[i] != waiting[j]
    {
      assert (taken + waiting)[i] == taken[i] && (taken + waiting)[|taken| + j] == waiting[j];
    }
  }

  lemma VanishedDie(n: Node, m: Node, h: History)
    requires Paired(n, h) && Thins(n, m)
    ensures forall id :: id in Vanished(n, m) ==> id in h.arrivals && !Alive(m, id)
  {
    KeepMembers(h.arrivals, h.gone);
    forall i | 0 <= i < |n.readyFds|
      ensures IdOf(n, n.readyFds[i]) in h.arrivals
    {
      var ids := Takers(h.settled) + Ids(n, n.readyFds);
      assert ids[|h.settled| + i] == IdOf(n, n.readyFds[i]);
      assert IdOf(n, n.readyFds[i]) in ids;
    }
  }

  lemma OthersPair(n: Node, fdMax: nat, op: Op, h: History)
    requires Inv(n, fdMax) && Allowed(n, op) && !Rendezvous(op) && Paired(n, h)
    requires op.OpClose? ==> forall x :: x in op.order ==> x in n.conns
    ensures Paired(Step(n, fdMax, op), Record(n, fdMax, op, Step(n, fdMax, op), h))
  {
    hide Inv, Step, Allowed, Thins, Keep, Ids, IdOf, Vanished, NewFd, Alive, Takers, Callers, QuietFrom;
    var m := Step(n, fdMax, op);
    StepIgnoresLog(n, fdMax, op);
    LogKeeps(n, fdMax, []);
    AllowedIgnoresLog(n, op);
    OthersThin(n.(log := []), fdMax, op);
    ThinIgnoresLog(n, m);
    QuietServes(n.(log := []), m);
    assert h.settled + [] == h.settled;
    InvReady(n, fdMax);
    ThinPairs(n, m, h, h.gone + Vanished(n, m));
    VanishedDie(n, m, h);
    OldIdsStay(n, fdMax, op, h);
    ThinWaiters(n, m);
  }

  lemma InvReady(n: Node, fdMax: nat)
    requires Inv(n, fdMax)
    ensures ReadyOk(n)
  {
  }

  lemma ThinWaiters(n: Node, m: Node)
    requires Thins(n, m)
    ensures m.acceptWaiters == n.acceptWaiters
  {
  }

  lemma StepIgnoresLog(n: Node, fdMax: nat, op: Op)
    requires op.OpClose? ==> forall x :: x in op.order ==> x in n.conns
    ensures Step(n.(log := []), fdMax, op) == Step(n, fdMax, op)
  {
  }

  lemma AllowedIgnoresLog(n: Node, op: Op)
    ensures Allowed(n.(log := []), op) == Allowed(n, op)
  {
  }

  lemma ThinIgnoresLog(n: Node, m: Node)
    requires Thins(n.(log := []), m)
    ensures Thins(n, m)
  {
  }

  lemma QuietServes(n: Node, m: Node)
    requires n.log == [] && QuietFrom(n, m)
    ensures Served(m, m.log) == []
  {
    ServedNone(m, m.log);
  }

  /** Epochs only grow, so what was recorded before stays recorded and what was dead stays dead. */
  lemma OldIdsStay(n: Node, fdMax: nat, op: Op, h: History)
    requires op.OpClose? ==> forall x :: x in op.order ==> x in n.conns
    requires Paired(n, h)
    ensures forall id :: id in h.arrivals ==> id.epoch <= Count(Step(n, fdMax, op).opens, id.fd)
    ensures forall id :: id in h.gone ==> !Alive(Step(n, fdMax, op), id)
  {
    hide Step, Alive, NewFd;
    forall id | id in h.arrivals
      ensures id.epoch <= Count(Step(n, fdMax, op).opens, id.fd)
    {
      StepOpens(n, fdMax, op);
    }
    forall id | id in h.gone
      ensures !Alive(Step(n, fdMax, op), id)
    {
      GoneStayGone(n, fdMax, op, id);
    }
  }

  lemma CallersAppend(a: seq<(Callback, Id)>, x: (Callback, Id))
    ensures Callers(a + [x]) == Callers(a) + [x.0] && Takers(a + [x]) == Takers(a) + [x.1]
  {
  }

  lemma IdsHead(n: Node, fds: seq<nat>)
    requires fds != []
    ensures Ids(n, fds) == [IdOf(n, fds[0])] + Ids(n, fds[1..])
  {
  }

  lemma AcceptPairs(n: Node, fdMax: nat, cb: Callback, h: History)
    requires Inv(n, fdMax) && Paired(n, h)
    ensures Paired(Step(n, fdMax, OpAccept(cb)), Record(n, fdMax, OpAccept(cb), Step(n, fdMax, OpAccept(cb)), h))
  {
    hide Inv, DoAccept, Ids, IdOf, Keep, Takers, Callers, Alive, NewFd;
    var k := n.(log := []);
    var m := Step(n, fdMax, OpAccept(cb));
    LogKeeps(n, fdMax, []);
    AcceptTakesFirst(k, fdMax, cb);
    DoAcceptOpens(k, cb);
    OldIdsStay(n, fdMax, OpAccept(cb), h);
    if n.readyFds == [] {
      assert Served(m, m.log) == [] && h.settled + [] == h.settled;
      assert Callers(h.settled) + n.acceptWaiters + [cb] == Callers(h.settled) + m.acceptWaiters;
      IdsFrame(n, m, m.readyFds);
    } else {
      AcceptOnePairs(n, fdMax, cb, h, m);
    }
  }

  lemma AcceptOnePairs(n: Node, fdMax: nat, cb: Callback, h: History, m: Node)
    requires Inv(n, fdMax) && Paired(n, h) && n.readyFds != []
    requires m.readyFds == n.readyFds[1..] && m.opens == n.opens && m.acceptWaiters == n.acceptWaiters
    requires m.log == [Posted(n.conns[n.readyFds[0]].remote, Accepted), AcceptDone(cb, n.readyFds[0])]
    requires n.readyFds[0] in n.conns
    ensures var settled := h.settled + Served(m, m.log);
            && h.calls + [cb] == Callers(settled) + m.acceptWaiters
            && Takers(settled) + Ids(m, m.readyFds) == Keep(h.arrivals, h.gone)
  {
    hide Inv, Keep, Alive, Ids, Takers, Callers, Served, IdOf;
    var x := (cb, IdOf(m, n.readyFds[0]));
    InvReady(n, fdMax);
    ServedOne(m, m.log[0], cb, n.readyFds[0]);
    SameIds(n, m);
    assert h.calls + [cb] == (Callers(h.settled) + [cb]) + m.acceptWaiters;
    CallersAppend(h.settled, x);
    IdsHead(n, n.readyFds);
    IdsFrame(n, m, m.readyFds);
    assert Takers(h.settled) + ([x.1] + Ids(n, n.readyFds[1..])) == (Takers(h.settled) + [x.1]) + Ids(n, n.readyFds[1..]);
  }

  lemma SameIds(n: Node, m: Node)
    requires m.opens == n.opens
    ensures forall fd :: IdOf(m, fd) == IdOf(n, fd)
  {
  }

  lemma ServedOne(m: Node, posted: Output, cb: Callback, fd: nat)
    requires posted.Posted?
    ensures Served(m, [posted, AcceptDone(cb, fd)]) == [(cb, IdOf(m, fd))]
  {
    var tail := [AcceptDone(cb, fd)];
    assert [posted, AcceptDone(cb, fd)][1..] == tail && tail[1..] == [];
    assert Served(m, tail) == [(cb, IdOf(m, fd))] + Served(m, []);
  }

  lemma KeepNew(arrivals: seq<Id>, gone: set<Id>, id: Id)
    requires id !in gone
    ensures Keep(arrivals + [id], gone) == Keep(arrivals, gone) + [id]
  {
    KeepConcat(arrivals, [id], gone);
    assert Keep([id], gone) == [id] + Keep([], gone);
  }

  lemma IdsAppend(n: Node, fds: seq<nat>, fd: nat)
    ensures Ids(n, fds + [fd]) == Ids(n, fds) + [IdOf(n, fd)]
  {
  }

  /** The incoming connection goes behind the ready ones, or straight to the first waiter. */
  lemma ArrivalPairs(n: Node, fdMax: nat, remote: NodeId, h: History, fd: nat, c: Node, m: Node)
    requires Inv(n, fdMax) && Paired(n, h) && Thins(n, c) && fd !in n.conns
    requires Count(c.opens, fd) == Count(n.opens, fd) + 1 && m.opens == c.opens
    requires if n.acceptWaiters == []
             then m.acceptWaiters == [] && m.readyFds == c.readyFds + [fd] && Served(m, m.log) == []
             else m.acceptWaiters == n.acceptWaiters[1..] && m.readyFds == c.readyFds && Served(m, m.log) == [(n.acceptWaiters[0], IdOf(m, fd))]
    ensures var settled, arrivals := h.settled + Served(m, m.log), h.arrivals + [IdOf(m, fd)];
            && h.calls == Callers(settled) + m.acceptWaiters
            && Takers(settled) + Ids(m, m.readyFds) == Keep(arrivals, h.gone + Vanished(n, m))
            && Distinct(arrivals) && IdOf(m, fd) !in h.gone
  {
    hide NumbersOk, QueuesOk, Bijection, Alive, Takers, Callers, Served, Keep, Ids;
    var id := IdOf(m, fd);
    assert id !in h.arrivals && id !in h.gone;
    assert Vanished(n, m) == Vanished(n, c) && id !in Vanished(n, c) by {
      assert fd !in n.readyFds;
    }
    ThinPairs(n, c, h, h.gone + Vanished(n, c));
    KeepNew(h.arrivals, h.gone + Vanished(n, c), id);
    IdsFrame(c, m, c.readyFds);
    if n.acceptWaiters == [] {
      IdsAppend(m, c.readyFds, fd);
      assert h.settled + [] == h.settled;
      assert (Takers(h.settled) + Ids(m, c.readyFds)) + [id] == Takers(h.settled) + (Ids(m, c.readyFds) + [id]);
    } else {
      CallersAppend(h.settled, (n.acceptWaiters[0], id));
      KeepShrinks(n, c);
      NothingReady(n, c, m);
      assert Callers(h.settled) + n.acceptWaiters == (Callers(h.settled) + [n.acceptWaiters[0]]) + n.acceptWaiters[1..];
    }
  }

  lemma HasMember(fds: seq<nat>)
    ensures fds != [] ==> exists fd :: fd in fds
  {
    if fds != [] {
      assert fds[0] in fds;
    }
  }

  lemma NothingReady(n: Node, c: Node, m: Node)
    requires n.readyFds == [] && forall fd :: fd in c.readyFds ==> fd in n.readyFds
    ensures c.readyFds == [] && Ids(m, c.readyFds) == []
  {
    HasMember(c.readyFds);
  }

  lemma ConnectPairs(n: Node, fdMax: nat, remote: NodeId, h: History)
    requires Inv(n, fdMax) && Paired(n, h)
    ensures var op := OpFrame(remote, Connect);
            Paired(Step(n, fdMax, op), Record(n, fdMax, op, Step(n, fdMax, op), h))
  {
    hide Inv, HandleConnect, CreateConn, Thins, Ids, Keep, Takers, Callers, Alive, ScanFds, Vanished, Served, IdOf;
    var op := OpFrame(remote, Connect);
    var k, m := n.(log := []), Step(n, fdMax, op);
    LogKeeps(n, fdMax, []);
    OldIdsStay(n, fdMax, op, h);
    NewFdBounds(k, fdMax);
    InvReady(n, fdMax);
    if NewFd(k, fdMax).Found? {
      var fd, p := NewFd(k, fdMax).fd, k.(nextFd := NewFd(k, fdMax).next);
      NextKeeps(k, fdMax, NewFd(k, fdMax).next);
      CreateConnThins(p, fdMax, fd, remote);
      CreateConnOpens(p, fd, remote);
      var c := CreateConn(p, fd, remote);
      ThinIgnoresNext(n, p, c);
      HandOverNeverFails(k, fdMax, remote);
      HandOverServes(p, c, m, fd);
      ArrivalPairs(n, fdMax, remote, h, fd, c, m);
      VanishedSame(n, c, m, fd);
      VanishedDie(n, c, h);
      AliveSame(c, m);
      IdEpoch(m, fd);
    } else {
      FullChangesNothing(k, fdMax, remote);
      UntouchedThins(n, m);
      assert Served(m, []) == [] by { ServedNone(m, []); }
      assert h.settled + [] == h.settled;
      ThinPairs(n, m, h, h.gone + Vanished(n, m));
      VanishedDie(n, m, h);
    }
  }

  lemma FullChangesNothing(n: Node, fdMax: nat, remote: NodeId)
    requires NewFd(n, fdMax).Full?
    ensures HandleConnect(n, fdMax, remote) == n.(nextFd := NewFd(n, fdMax).next)
  {
  }

  lemma ThinIgnoresNext(n: Node, p: Node, c: Node)
    requires Thins(p, c) && p == n.(log := p.log, nextFd := p.nextFd)
    ensures Thins(n, c)
  {
  }

  lemma IdEpoch(m: Node, fd: nat)
    ensures IdOf(m, fd).fd == fd && IdOf(m, fd).epoch == Count(m.opens, fd)
  {
  }

  lemma AliveSame(c: Node, m: Node)
    requires m.conns == c.conns && m.opens == c.opens
    ensures forall id :: Alive(m, id) <==> Alive(c, id)
  {
  }

  lemma VanishedSame(n: Node, c: Node, m: Node, fd: nat)
    requires fd !in n.readyFds && (m.readyFds == c.readyFds || m.readyFds == c.readyFds + [fd])
    ensures Vanished(n, m) == Vanished(n, c)
  {
  }

  /** What the hand-over logs: nothing, or the first waiter getting the new connection. */
  lemma HandOverServes(p: Node, c: Node, m: Node, fd: nat)
    requires QuietFrom(p, c) && p.log == [] && Live(c, fd)
    requires m == if c.acceptWaiters == [] then c.(readyFds := c.readyFds + [fd])
                  else SettleAccept(c.(acceptWaiters := c.acceptWaiters[1..]), fd, c.acceptWaiters[0])
    ensures Served(m, m.log) == if c.acceptWaiters == [] then [] else [(c.acceptWaiters[0], IdOf(m, fd))]
  {
    ServedNone(m, c.log);
    if c.acceptWaiters != [] {
      var tail := [Posted(c.conns[fd].remote, Accepted), AcceptDone(c.acceptWaiters[0], fd)];
      ServedConcat(m, c.log, tail);
      assert tail[1..] == [AcceptDone(c.acceptWaiters[0], fd)] && tail[1..][1..] == [];
      assert Served(m, tail[1..]) == [(c.acceptWaiters[0], IdOf(m, fd))] + Served(m, []);
    }
  }

  /** Every operation keeps the pairing. */
  lemma StepPairs(n: Node, fdMax: nat, op: Op, h: History)
    requires Inv(n, fdMax) && Allowed(n, op) && Paired(n, h)
    ensures op.OpClose? ==> forall fd :: fd in op.order ==> fd in n.conns
    ensures Paired(Step(n, fdMax, op), Record(n, fdMax, op, Step(n, fdMax, op), h))
  {
    hide Inv, Paired, Step, Record, Allowed;
    StepKeeps(n, fdMax, op);
    if op.OpAccept? {
      AcceptPairs(n, fdMax, op.cb, h);
    } else if op.OpFrame? && op.frame.Connect? {
      ConnectPairs(n, fdMax, op.from, h);
    } else {
      OthersPair(n, fdMax, op, h);
    }
  }

  ghost function HistoryOf(n: Node, fdMax: nat, ops: seq<Op>, h: History): History
    requires Inv(n, fdMax) && RunAllowed(n, fdMax, ops)
    decreases |ops|
  {
    if ops == [] then h
    else
      StepKeeps(n, fdMax, ops[0]);
      var m := Step(n, fdMax, ops[0]);
      HistoryOf(m, fdMax, ops[1..], Record(n, fdMax, ops[0], m, h))
  }

  lemma {:induction false} RunPairs(n: Node, fdMax: nat, ops: seq<Op>, h: History)
    requires Inv(n, fdMax) && RunAllowed(n, fdMax, ops) && Paired(n, h)
    ensures Paired(After(n, fdMax, ops), HistoryOf(n, fdMax, ops, h)) && Inv(After(n, fdMax, ops), fdMax)
    decreases |ops|
  {
    hide Inv, Paired, Step, Record, Allowed;
    if ops != [] {
      StepKeeps(n, fdMax, ops[0]);
      StepPairs(n, fdMax, ops[0], h);
      var m := Step(n, fdMax, ops[0]);
      RunPairs(m, fdMax, ops[1..], Record(n, fdMax, ops[0], m, h));
    }
  }

  const Nothing: History := History([], [], [], {})

  /**
    For every run, closing the manager included: the k-th completed accept is the k-th accept call
    and holds the k-th incoming connection that did not die waiting; calls that have not completed
    are still waiting in order, and only when no connection is ready.
   */
  lemma AcceptsPairInOrder(fdMax: nat, ops: seq<Op>)
    requires Inv(Init(), fdMax) && RunAllowed(Init(), fdMax, ops)
    ensures var n, h := After(Init(), fdMax, ops), HistoryOf(Init(), fdMax, ops, Nothing);
            var survivors := Keep(h.arrivals, h.gone);
            && |h.settled| <= |h.calls| && |h.settled| <= |survivors|
            && (forall k :: 0 <= k < |h.settled| ==> h.settled[k] == (h.calls[k], survivors[k]))
            && h.calls[|h.settled|..] == n.acceptWaiters
            && (n.acceptWaiters == [] || |h.settled| == |survivors|)
            && (forall id :: id in h.gone ==> !Alive(n, id))
  {
    hide Inv, Step, Record, Allowed;
    RunPairs(Init(), fdMax, ops, Nothing);
    var n, h := After(Init(), fdMax, ops), HistoryOf(Init(), fdMax, ops, Nothing);
    InvReady(n, fdMax);
    assert h.calls == Callers(h.settled) + n.acceptWaiters;
    assert Takers(h.settled) + Ids(n, n.readyFds) == Keep(h.arrivals, h.gone);
  }
}
