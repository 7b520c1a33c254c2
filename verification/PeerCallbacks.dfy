/**
  Callbacks are conserved: a `recv` or `connect` callback is either still parked on a live
  connection or has been called, and it is never called more often than it was passed in.
 */
module PeerCallbacks {
  import opened Arith
  import opened Option
  import opened PeerModel
  import opened PeerInvariant
  import opened PeerAccept

  datatype Kind = Reads | Connects

  /** The callback of a kind that a connection still owes. */
  function Pending(kind: Kind, conn: Conn): Option<Callback> {
    match kind
    case Reads => if conn.wake.Some? then Some(conn.wake.value.cb) else None
    case Connects => conn.accepted
  }

  function Calls(kind: Kind, o: Output, cb: Callback): nat {
    match kind
    case Reads => if o.RecvDone? && o.cb == cb then 1 else 0
    case Connects => if o.ConnectDone? && o.cb == cb then 1 else 0
  }

  /** How often a callback was called. */
  function Fires(kind: Kind, log: seq<Output>, cb: Callback): nat {
    if log == [] then 0 else Calls(kind, log[0], cb) + Fires(kind, log[1..], cb)
  }

  function Owed(kind: Kind, conns: map<nat, Conn>, cb: Callback): set<nat> {
    set fd | fd in conns && Pending(kind, conns[fd]) == Some(cb)
  }

  function Due(kind: Kind, conn: Conn, cb: Callback): nat { if Pending(kind, conn) == Some(cb) then 1 else 0 }

  /** Calls made plus calls owed. */
  function Balance(kind: Kind, n: Node, cb: Callback): nat {
    Fires(kind, n.log, cb) + |Owed(kind, n.conns, cb)|
  }

  lemma {:induction false} FiresConcat(kind: Kind, a: seq<Output>, b: seq<Output>, cb: Callback)
    ensures Fires(kind, a + b, cb) == Fires(kind, a, cb) + Fires(kind, b, cb)
  {
    if a == [] {
      assert a + b == b;
    } else {
      assert (a + b)[1..] == a[1..] + b;
      FiresConcat(kind, a[1..], b, cb);
    }
  }

  lemma {:induction false} FiresNothing(kind: Kind, log: seq<Output>, cb: Callback)
    requires forall i :: 0 <= i < |log| ==> Calls(kind, log[i], cb) == 0
    ensures Fires(kind, log, cb) == 0
  {
    if log != [] {
      FiresNothing(kind, log[1..], cb);
    }
  }

  lemma FiresOne(kind: Kind, o: Output, cb: Callback)
    ensures Fires(kind, [o], cb) == Calls(kind, o, cb)
  {
  }

  lemma OwedSet(kind: Kind, conns: map<nat, Conn>, fd: nat, conn: Conn, cb: Callback)
    ensures |Owed(kind, conns[fd := conn], cb)| + (if fd in conns then Due(kind, conns[fd], cb) else 0)
            == |Owed(kind, conns, cb)| + Due(kind, conn, cb)
  {
    hide Pending;
    var without := Owed(kind, conns, cb) - {fd};
    assert Owed(kind, conns, cb) == if fd in conns && Pending(kind, conns[fd]) == Some(cb) then without + {fd} else without;
    assert Owed(kind, conns[fd := conn], cb) == if Pending(kind, conn) == Some(cb) then without + {fd} else without;
  }

  /** Replacing a connection and calling back moves the balance by what was gained and owed. */
  lemma SetBalance(kind: Kind, n: Node, m: Node, fd: nat, conn: Conn, more: seq<Output>, cb: Callback)
    requires m.conns == n.conns[fd := conn] && m.log == n.log + more
    ensures Balance(kind, m, cb) + (if fd in n.conns then Due(kind, n.conns[fd], cb) else 0)
            == Balance(kind, n, cb) + Due(kind, conn, cb) + Fires(kind, more, cb)
  {
    hide Fires, Owed, Due;
    OwedSet(kind, n.conns, fd, conn, cb);
    FiresConcat(kind, n.log, more, cb);
  }

  lemma LogBalance(kind: Kind, n: Node, m: Node, more: seq<Output>, cb: Callback)
    requires m.conns == n.conns && m.log == n.log + more
    ensures Balance(kind, m, cb) == Balance(kind, n, cb) + Fires(kind, more, cb)
  {
    FiresConcat(kind, n.log, more, cb);
  }

  lemma FiresSettled(kind: Kind, conn: Conn, cb: Callback)
    ensures Fires(kind, WakeFalse(conn.wake) + AcceptedFalse(conn.accepted), cb) == Due(kind, conn, cb)
    ensures Due(kind, Dead(conn), cb) == 0
  {
    FiresConcat(kind, WakeFalse(conn.wake), AcceptedFalse(conn.accepted), cb);
    if conn.wake.Some? {
      FiresOne(kind, RecvDone(conn.wake.value.cb, false), cb);
    }
    if conn.accepted.Some? {
      FiresOne(kind, ConnectDone(conn.accepted.value, -1), cb);
    }
  }

  /** A tombstone calls what it owes. */
  lemma TombstoneBalance(kind: Kind, n: Node, fd: nat, cb: Callback)
    requires fd in n.conns
    ensures Balance(kind, Tombstone(n, fd), cb) == Balance(kind, n, cb)
  {
    hide Balance, Fires, Due, Without, Unlinked, WakeFalse, AcceptedFalse, Dead;
    var conn := n.conns[fd];
    if !conn.closed {
      FiresSettled(kind, conn, cb);
      var more := WakeFalse(conn.wake) + AcceptedFalse(conn.accepted);
      assert Tombstone(n, fd).log == n.log + more;
      SetBalance(kind, n, Tombstone(n, fd), fd, Dead(conn), more, cb);
    }
  }

  lemma SupersedeBalance(kind: Kind, n: Node, remote: NodeId, cb: Callback)
    ensures Balance(kind, Supersede(n, remote), cb) == Balance(kind, n, cb)
  {
    hide Balance, Tombstone;
    if remote in n.byRemote && n.byRemote[remote] in n.conns {
      TombstoneBalance(kind, n, n.byRemote[remote], cb);
    }
  }

  lemma CreateConnBalance(kind: Kind, n: Node, fd: nat, remote: NodeId, cb: Callback)
    requires fd !in n.conns
    ensures Balance(kind, CreateConn(n, fd, remote), cb) == Balance(kind, n, cb)
  {
    hide Balance, Supersede, Fires;
    SupersedeBalance(kind, n, remote, cb);
    var m := Supersede(n, remote);
    SupersedeFrame(n, remote);
    SetBalance(kind, m, CreateConn(n, fd, remote), fd, Conn(remote, false, [], 0, None, None), [], cb);
    FiresNothing(kind, [], cb);
  }

  lemma SettleBalance(kind: Kind, n: Node, fd: nat, done: Callback, cb: Callback)
    ensures Balance(kind, SettleAccept(n, fd, done), cb) == Balance(kind, n, cb)
  {
    hide Balance;
    if Settles(n, fd) {
      var more := [Posted(n.conns[fd].remote, Frame.Accepted), AcceptDone(done, fd)];
      FiresNothing(kind, more, cb);
      LogBalance(kind, n, SettleAccept(n, fd, done), more, cb);
    }
  }

  lemma ArriveBalance(kind: Kind, n: Node, fdMax: nat, remote: NodeId, cb: Callback)
    requires Inv(n, fdMax)
    ensures Balance(kind, HandleConnect(n, fdMax, remote), cb) == Balance(kind, n, cb)
  {
    hide Inv, CreateConn, SettleAccept, NewFd, Fires;
    NewFdBounds(n, fdMax);
    if NewFd(n, fdMax).Found? {
      var fd, p := NewFd(n, fdMax).fd, n.(nextFd := NewFd(n, fdMax).next);
      CreateConnBalance(kind, p, fd, remote, cb);
      var c := CreateConn(p, fd, remote);
      if c.acceptWaiters != [] {
        SettleBalance(kind, c.(acceptWaiters := c.acceptWaiters[1..]), fd, c.acceptWaiters[0], cb);
      }
    }
  }

  lemma {:induction false} AcceptBalance(kind: Kind, n: Node, done: Callback, cb: Callback)
    ensures Balance(kind, DoAccept(n, done), cb) == Balance(kind, n, cb)
    decreases |n.readyFds|
  {
    if n.readyFds != [] {
      var m := n.(readyFds := n.readyFds[1..]);
      SettleBalance(kind, m, n.readyFds[0], done, cb);
      if !Settles(m, n.readyFds[0]) {
        AcceptBalance(kind, m, done, cb);
      }
    }
  }

  /** A completed read calls its callback once. */
  lemma CompleteBalance(kind: Kind, n: Node, fd: nat, r: Recv, cb: Callback)
    requires fd in n.conns
    ensures Balance(kind, Complete(n, fd, r), cb) == Balance(kind, n, cb) + Calls(kind, RecvDone(r.cb, true), cb)
  {
    hide Balance, Fires, Drain, Writes;
    var writes := Writes(r.cb, Drain(n.conns[fd].queue, r.len).pieces);
    var done := [RecvDone(r.cb, true)];
    WritesQuiet(r.cb, Drain(n.conns[fd].queue, r.len).pieces);
    FiresNothing(kind, writes, cb);
    FiresOne(kind, done[0], cb);
    FiresConcat(kind, writes, done, cb);
    assert Complete(n, fd, r).log == n.log + (writes + done);
    SetBalance(kind, n, Complete(n, fd, r), fd, Rest(n.conns[fd], r.len), writes + done, cb);
  }

  lemma DataBalance(kind: Kind, n: Node, fdMax: nat, remote: NodeId, bytes: Bytes, cb: Callback)
    requires Inv(n, fdMax)
    ensures Balance(kind, HandleData(n, remote, bytes), cb) == Balance(kind, n, cb)
  {
    hide Balance, Fires, ReadyOk, NumbersOk, QueuesOk, Complete;
    if remote in n.byRemote && bytes != [] {
      var fd := n.byRemote[remote];
      assert Live(n, fd);
      var conn := n.conns[fd];
      var m := n.(conns := n.conns[fd := Filled(conn, bytes)]);
      FiresNothing(kind, [], cb);
      assert m.log == n.log + [];
      SetBalance(kind, n, m, fd, Filled(conn, bytes), [], cb);
      if conn.wake.Some? {
        CompleteBalance(kind, m, fd, conn.wake.value, cb);
      }
    }
  }

  lemma AcceptedBalance(kind: Kind, n: Node, remote: NodeId, cb: Callback)
    ensures Balance(kind, HandleAccepted(n, remote), cb) == Balance(kind, n, cb)
  {
    hide Balance, Fires;
    if remote in n.byRemote && n.byRemote[remote] in n.conns {
      var fd := n.byRemote[remote];
      var conn := n.conns[fd];
      var more := if conn.accepted.Some? then [ConnectDone(conn.accepted.value, fd)] else [];
      FiresNothing(kind, [], cb);
      if conn.accepted.Some? {
        FiresOne(kind, more[0], cb);
      }
      SetBalance(kind, n, HandleAccepted(n, remote), fd, conn.(accepted := None), more, cb);
    }
  }

  lemma CloseBalance(kind: Kind, n: Node, fdMax: nat, fd: nat, cb: Callback)
    requires Inv(n, fdMax)
    ensures Balance(kind, DoCloseConnection(n, fd), cb) == Balance(kind, n, cb)
  {
    hide Inv, Fires, Tombstone;
    if fd in n.conns {
      var more := [Posted(n.conns[fd].remote, Frame.Close)];
      var posted := n.(log := n.log + more);
      FiresNothing(kind, more, cb);
      LogBalance(kind, n, posted, more, cb);
      LogKeeps(n, fdMax, posted.log);
      TombstoneKeeps(posted, fdMax, fd);
      TombstoneBalance(kind, posted, fd, cb);
      var t := if n.conns[fd].closed then n else Tombstone(posted, fd);
      DeadOwesNothing(kind, t, fdMax, fd);
      assert Owed(kind, t.conns - {fd}, cb) == Owed(kind, t.conns, cb);
    }
  }

  lemma DeadOwesNothing(kind: Kind, n: Node, fdMax: nat, fd: nat)
    requires Inv(n, fdMax) && fd in n.conns && !Live(n, fd)
    ensures Pending(kind, n.conns[fd]) == None
  {
  }

  lemma {:induction false} CloseAllBalance(kind: Kind, n: Node, order: seq<nat>, cb: Callback)
    requires forall fd :: fd in order ==> fd in n.conns
    ensures Balance(kind, TombstoneAll(n, order), cb) == Balance(kind, n, cb)
    decreases |order|
  {
    hide Balance, Tombstone;
    if order != [] {
      TombstoneBalance(kind, n, order[0], cb);
      TombstoneFrame(n, order[0]);
      CloseAllBalance(kind, Tombstone(n, order[0]), order[1..], cb);
    }
  }

  /** The callback an operation passes in. */
  function Passed(kind: Kind, op: Op): Option<Callback> {
    match op
    case OpRecv(_, r) => if kind.Reads? then Some(r.cb) else None
    case OpConnect(_, cb) => if kind.Connects? then Some(cb) else None
    case _ => None
  }

  /** Nobody reads from a connection that already has a parked reader. */
  ghost predicate Orderly(kind: Kind, n: Node, op: Op) {
    kind.Reads? && op.OpRecv? && op.fd in n.conns ==> n.conns[op.fd].wake.None?
  }

  lemma RecvBalance(kind: Kind, n: Node, fd: nat, r: Recv, cb: Callback)
    requires Orderly(kind, n, OpRecv(fd, r))
    ensures Balance(kind, DoRecv(n, fd, r), cb) == Balance(kind, n, cb) + Calls(kind, RecvDone(r.cb, true), cb)
  {
    hide Balance, Fires, Drain, Complete;
    if !Settles(n, fd) {
      FiresOne(kind, RecvDone(r.cb, false), cb);
      LogBalance(kind, n, DoRecv(n, fd, r), [RecvDone(r.cb, false)], cb);
    } else if Drain(n.conns[fd].queue, r.len).written > 0 {
      CompleteBalance(kind, n, fd, r, cb);
    } else {
      FiresNothing(kind, [], cb);
      SetBalance(kind, n, DoRecv(n, fd, r), fd, n.conns[fd].(wake := Some(r)), [], cb);
    }
  }

  lemma ConnectBalance(kind: Kind, n: Node, fdMax: nat, remote: NodeId, passed: Callback, cb: Callback)
    requires Inv(n, fdMax)
    ensures Balance(kind, DoConnect(n, fdMax, remote, passed), cb) == Balance(kind, n, cb) + Calls(kind, ConnectDone(passed, -1), cb)
  {
    hide Inv, Balance, Fires, NewFd, Supersede;
    NewFdBounds(n, fdMax);
    if NewFd(n, fdMax).Full? {
      FiresOne(kind, ConnectDone(passed, -1), cb);
      LogBalance(kind, n, DoConnect(n, fdMax, remote, passed), [ConnectDone(passed, -1)], cb);
    } else {
      var fd, p := NewFd(n, fdMax).fd, n.(nextFd := NewFd(n, fdMax).next);
      CreateConnBalance(kind, p, fd, remote, cb);
      SameBalance(kind, n, p, cb);
      var c := CreateConn(p, fd, remote);
      FiresNothing(kind, [Posted(remote, Connect)], cb);
      SetBalance(kind, c, DoConnect(n, fdMax, remote, passed), fd, c.conns[fd].(accepted := Some(passed)), [Posted(remote, Connect)], cb);
    }
  }

  lemma SameBalance(kind: Kind, n: Node, m: Node, cb: Callback)
    requires m.conns == n.conns && m.log == n.log
    ensures Balance(kind, m, cb) == Balance(kind, n, cb)
  {
  }

  lemma SendBalance(kind: Kind, n: Node, fd: nat, data: Bytes, postOk: bool, cb: Callback)
    ensures Balance(kind, DoSend(n, fd, data, postOk), cb) == Balance(kind, n, cb)
  {
    hide Balance, Fires;
    if Settles(n, fd) && data != [] && postOk {
      var more := [Posted(n.conns[fd].remote, Data(data[..Taken(data)]))];
      FiresNothing(kind, more, cb);
      LogBalance(kind, n, DoSend(n, fd, data, postOk), more, cb);
    }
  }

  /** One operation calls or owes exactly what was owed and what it was passed. */
  lemma StepBalance(kind: Kind, n: Node, fdMax: nat, op: Op, cb: Callback)
    requires Inv(n, fdMax) && Allowed(n, op) && Orderly(kind, n, op)
    ensures op.OpClose? ==> forall fd :: fd in op.order ==> fd in n.conns
    ensures Balance(kind, Step(n, fdMax, op), cb) == |Owed(kind, n.conns, cb)| + if Passed(kind, op) == Some(cb) then 1 else 0
  {
    hide Inv, Allowed, Balance, Fires, Owed, DoConnect, DoAccept, DoSend, DoRecv, DoCloseConnection, HandleConnect, HandleData, HandleAccepted, Supersede, TombstoneAll;
    StepKeeps(n, fdMax, op);
    LogKeeps(n, fdMax, []);
    var m := n.(log := []);
    NothingYet(kind, m, cb);
    match op
    case OpConnect(remote, passed) => ConnectBalance(kind, m, fdMax, remote, passed, cb);
    case OpAccept(done) => AcceptBalance(kind, m, done, cb);
    case OpSend(fd, data, postOk) => SendBalance(kind, m, fd, data, postOk, cb);
    case OpRecv(fd, r) => RecvBalance(kind, m, fd, r, cb);
    case OpCloseConnection(fd) => CloseBalance(kind, m, fdMax, fd, cb);
    case OpClose(order) =>
      CloseAllBalance(kind, m, order, cb);
      SameBalance(kind, TombstoneAll(m, order), DoClose(m, order), cb);
    case OpFrame(from, frame) =>
      match frame {
        case Connect => ArriveBalance(kind, m, fdMax, from, cb);
        case Accepted => AcceptedBalance(kind, m, from, cb);
        case Data(bytes) => DataBalance(kind, m, fdMax, from, bytes, cb);
        case Close => SupersedeBalance(kind, m, from, cb);
        case Unknown =>
      }
  }

  lemma NothingYet(kind: Kind, n: Node, cb: Callback)
    requires n.log == []
    ensures Balance(kind, n, cb) == |Owed(kind, n.conns, cb)|
  {
  }

  // ----- whom a parked callback belongs to -----

  /** Every callback owed afterwards was owed by the same connection before, or was just passed in. */
  ghost predicate Inherits(kind: Kind, n: Node, m: Node, passed: Option<(nat, Callback)>) {
    forall fd :: fd in m.conns && Pending(kind, m.conns[fd]).Some? ==>
      || passed == Some((fd, Pending(kind, m.conns[fd]).value))
      || (fd in n.conns && Pending(kind, n.conns[fd]) == Pending(kind, m.conns[fd]))
  }

  lemma TombstoneInherits(kind: Kind, n: Node, fd: nat)
    requires fd in n.conns
    ensures Inherits(kind, n, Tombstone(n, fd), None)
  {
  }

  lemma CreateConnInherits(kind: Kind, n: Node, fd: nat, remote: NodeId)
    ensures Inherits(kind, n, CreateConn(n, fd, remote), None)
  {
  }

  lemma ConnectInherits(kind: Kind, n: Node, fdMax: nat, remote: NodeId, cb: Callback)
    ensures Inherits(kind, n, DoConnect(n, fdMax, remote, cb),
                     if kind.Connects? && NewFd(n, fdMax).Found? then Some((NewFd(n, fdMax).fd, cb)) else None)
  {
    hide CreateConn, NewFd;
    if NewFd(n, fdMax).Found? {
      var fd, p := NewFd(n, fdMax).fd, n.(nextFd := NewFd(n, fdMax).next);
      CreateConnInherits(kind, p, fd, remote);
      CreateConnOpens(p, fd, remote);
      var c, m := CreateConn(p, fd, remote), DoConnect(n, fdMax, remote, cb);
      forall x | x in m.conns && Pending(kind, m.conns[x]).Some?
        ensures (x == fd && kind.Connects? && Pending(kind, m.conns[x]) == Some(cb)) || Pending(kind, c.conns[x]) == Pending(kind, m.conns[x])
      {
      }
    }
  }

  lemma ArrivalInherits(kind: Kind, n: Node, fdMax: nat, remote: NodeId)
    ensures Inherits(kind, n, HandleConnect(n, fdMax, remote), None)
  {
    hide CreateConn, HandleConnect, NewFd;
    ArrivalOpens(n, fdMax, remote);
    if NewFd(n, fdMax).Found? {
      CreateConnInherits(kind, n.(nextFd := NewFd(n, fdMax).next), NewFd(n, fdMax).fd, remote);
    }
  }

  lemma {:induction false} TombstoneAllInherits(kind: Kind, n: Node, order: seq<nat>)
    requires forall fd :: fd in order ==> fd in n.conns
    ensures Inherits(kind, n, TombstoneAll(n, order), None)
    decreases |order|
  {
    hide Tombstone;
    if order != [] {
      TombstoneInherits(kind, n, order[0]);
      TombstoneFrame(n, order[0]);
      TombstoneAllInherits(kind, Tombstone(n, order[0]), order[1..]);
    }
  }

  lemma CloseConnectionInherits(kind: Kind, n: Node, fd: nat)
    ensures Inherits(kind, n, DoCloseConnection(n, fd), None)
  {
  }

  lemma DataInherits(kind: Kind, n: Node, remote: NodeId, bytes: Bytes)
    ensures Inherits(kind, n, HandleData(n, remote, bytes), None)
  {
    hide Drain, Writes;
  }

  lemma SupersedeInherits(kind: Kind, n: Node, remote: NodeId)
    ensures Inherits(kind, n, Supersede(n, remote), None)
  {
  }

  lemma FrameInherits(kind: Kind, n: Node, fdMax: nat, from: NodeId, frame: Frame)
    ensures Inherits(kind, n, HandleFrame(n, fdMax, from, frame), None)
  {
    hide HandleData, HandleConnect, Supersede;
    match frame
    case Connect => ArrivalInherits(kind, n, fdMax, from);
    case Data(bytes) => DataInherits(kind, n, from, bytes);
    case Close => SupersedeInherits(kind, n, from);
    case _ =>
  }

  /** Who a callback is passed for: the connection named, or the one a `connect` opens. */
  function PassedTo(kind: Kind, n: Node, fdMax: nat, op: Op): Option<nat> {
    match op
    case OpRecv(fd, _) => if kind.Reads? then Some(fd) else None
    case OpConnect(_, _) => if kind.Connects? && NewFd(n, fdMax).Found? then Some(NewFd(n, fdMax).fd) else None
    case _ => None
  }

  lemma RecvInherits(kind: Kind, n: Node, fd: nat, r: Recv)
    ensures Inherits(kind, n, DoRecv(n, fd, r), if kind.Reads? then Some((fd, r.cb)) else None)
  {
    hide Drain, Writes;
  }

  lemma StepInherits(kind: Kind, n: Node, fdMax: nat, op: Op)
    requires op.OpClose? ==> forall x :: x in op.order ==> x in n.conns
    ensures Inherits(kind, n, Step(n, fdMax, op),
                     match PassedTo(kind, n, fdMax, op) case None => None case Some(fd) => Some((fd, Passed(kind, op).value)))
  {
    hide DoAccept, TombstoneAll, DoConnect, DoRecv, HandleFrame, DoCloseConnection, NewFd;
    var k := n.(log := []);
    assert NewFd(k, fdMax) == NewFd(n, fdMax) by { SameNumbers(n, fdMax); }
    match op
    case OpAccept(cb) => DoAcceptOpens(k, cb);
    case OpClose(order) => TombstoneAllInherits(kind, k, order);
    case OpConnect(remote, cb) => ConnectInherits(kind, k, fdMax, remote, cb);
    case OpRecv(fd, r) => RecvInherits(kind, k, fd, r);
    case OpCloseConnection(fd) => CloseConnectionInherits(kind, k, fd);
    case OpFrame(from, frame) => FrameInherits(kind, k, fdMax, from, frame);
    case _ =>
  }

  lemma SameNumbers(n: Node, fdMax: nat)
    ensures NewFd(n.(log := []), fdMax) == NewFd(n, fdMax)
  {
  }

  // ----- runs -----

  /** A callback together with the connection it was passed for; none if there was no free number. */
  datatype Call = Call(id: Option<Id>, cb: Callback)

  datatype Ledger = Ledger(calls: seq<Call>, outputs: seq<Output>)

  function NewCalls(kind: Kind, n: Node, fdMax: nat, op: Op, m: Node): seq<Call> {
    if Passed(kind, op).None? then []
    else
      match PassedTo(kind, n, fdMax, op)
      case None => [Call(None, Passed(kind, op).value)]
      case Some(fd) => [Call(Some(IdOf(m, fd)), Passed(kind, op).value)]
  }

  function Enter(kind: Kind, n: Node, fdMax: nat, op: Op, m: Node, l: Ledger): Ledger {
    Ledger(l.calls + NewCalls(kind, n, fdMax, op, m), l.outputs + m.log)
  }

  /** How often a callback was passed in. */
  function Passes(calls: seq<Call>, cb: Callback): nat {
    if calls == [] then 0 else (if calls[0].cb == cb then 1 else 0) + Passes(calls[1..], cb)
  }

  lemma {:induction false} PassesConcat(a: seq<Call>, b: seq<Call>, cb: Callback)
    ensures Passes(a + b, cb) == Passes(a, cb) + Passes(b, cb)
  {
    if a == [] {
      assert a + b == b;
    } else {
      assert (a + b)[1..] == a[1..] + b;
      PassesConcat(a[1..], b, cb);
    }
  }

  lemma {:induction false} PassesOnce(calls: seq<Call>, k: nat)
    requires k < |calls| && forall j :: 0 <= j < |calls| && j != k ==> calls[j].cb != calls[k].cb
    ensures Passes(calls, calls[k].cb) == 1
  {
    if k == 0 {
      PassesNone(calls[1..], calls[0].cb);
    } else {
      PassesOnce(calls[1..], k - 1);
    }
  }

  lemma {:induction false} PassesNone(calls: seq<Call>, cb: Callback)
    requires forall j :: 0 <= j < |calls| ==> calls[j].cb != cb
    ensures Passes(calls, cb) == 0
  {
    if calls != [] {
      PassesNone(calls[1..], cb);
    }
  }

  ghost predicate Conserved(kind: Kind, n: Node, l: Ledger) {
    forall cb: Callback :: Fires(kind, l.outputs, cb) + |Owed(kind, n.conns, cb)| == Passes(l.calls, cb)
  }

  ghost predicate Known(kind: Kind, n: Node, l: Ledger) {
    forall fd :: fd in n.conns && Pending(kind, n.conns[fd]).Some? ==>
      Call(Some(IdOf(n, fd)), Pending(kind, n.conns[fd]).value) in l.calls
  }

  lemma StepConserves(kind: Kind, n: Node, fdMax: nat, op: Op, l: Ledger)
    requires Inv(n, fdMax) && Allowed(n, op) && Orderly(kind, n, op) && Conserved(kind, n, l)
    ensures op.OpClose? ==> forall fd :: fd in op.order ==> fd in n.conns
    ensures Conserved(kind, Step(n, fdMax, op), Enter(kind, n, fdMax, op, Step(n, fdMax, op), l))
  {
    hide Inv, Allowed, Orderly, Step, Fires, Owed, Passes, PassedTo;
    StepKeeps(n, fdMax, op);
    var m := Step(n, fdMax, op);
    forall cb: Callback
      ensures Fires(kind, l.outputs + m.log, cb) + |Owed(kind, m.conns, cb)| == Passes(Enter(kind, n, fdMax, op, m, l).calls, cb)
    {
      StepBalance(kind, n, fdMax, op, cb);
      FiresConcat(kind, l.outputs, m.log, cb);
      PassesConcat(l.calls, NewCalls(kind, n, fdMax, op, m), cb);
      NewPasses(kind, n, fdMax, op, m, cb);
    }
  }

  lemma NewPasses(kind: Kind, n: Node, fdMax: nat, op: Op, m: Node, cb: Callback)
    ensures Passes(NewCalls(kind, n, fdMax, op, m), cb) == if Passed(kind, op) == Some(cb) then 1 else 0
  {
  }

  lemma StepKnows(kind: Kind, n: Node, fdMax: nat, op: Op, l: Ledger)
    requires Inv(n, fdMax) && Allowed(n, op) && Known(kind, n, l)
    requires op.OpClose? ==> forall fd :: fd in op.order ==> fd in n.conns
    ensures Known(kind, Step(n, fdMax, op), Enter(kind, n, fdMax, op, Step(n, fdMax, op), l))
  {
    hide Inv, Allowed, Step, Pending, NewFd;
    var m := Step(n, fdMax, op);
    StepInherits(kind, n, fdMax, op);
    forall fd | fd in m.conns && Pending(kind, m.conns[fd]).Some?
      ensures Call(Some(IdOf(m, fd)), Pending(kind, m.conns[fd]).value) in Enter(kind, n, fdMax, op, m, l).calls
    {
      if PassedTo(kind, n, fdMax, op) == Some(fd) && Passed(kind, op) == Pending(kind, m.conns[fd]) {
        assert NewCalls(kind, n, fdMax, op, m)[0] == Call(Some(IdOf(m, fd)), Pending(kind, m.conns[fd]).value);
      } else {
        assert fd in n.conns && Pending(kind, n.conns[fd]) == Pending(kind, m.conns[fd]);
        if Count(m.opens, fd) != Count(n.opens, fd) {
          OpensOnlyFreeNumbers(n, fdMax, op, fd);
        }
        assert Call(Some(IdOf(n, fd)), Pending(kind, n.conns[fd]).value) in l.calls;
      }
    }
  }

  ghost predicate RunOrderly(kind: Kind, n: Node, fdMax: nat, ops: seq<Op>)
    requires Inv(n, fdMax) && RunAllowed(n, fdMax, ops)
    decreases |ops|
  {
    ops == [] ||
    (Orderly(kind, n, ops[0]) && (StepKeeps(n, fdMax, ops[0]); RunOrderly(kind, Step(n, fdMax, ops[0]), fdMax, ops[1..])))
  }

  ghost function LedgerOf(kind: Kind, n: Node, fdMax: nat, ops: seq<Op>, l: Ledger): Ledger
    requires Inv(n, fdMax) && RunAllowed(n, fdMax, ops)
    decreases |ops|
  {
    if ops == [] then l
    else
      StepKeeps(n, fdMax, ops[0]);
      var m := Step(n, fdMax, ops[0]);
      LedgerOf(kind, m, fdMax, ops[1..], Enter(kind, n, fdMax, ops[0], m, l))
  }

  lemma {:induction false} RunConserves(kind: Kind, n: Node, fdMax: nat, ops: seq<Op>, l: Ledger)
    requires Inv(n, fdMax) && RunAllowed(n, fdMax, ops) && RunOrderly(kind, n, fdMax, ops)
    requires Conserved(kind, n, l) && Known(kind, n, l)
    ensures var m, k := After(n, fdMax, ops), LedgerOf(kind, n, fdMax, ops, l);
            Conserved(kind, m, k) && Known(kind, m, k) && Inv(m, fdMax)
    decreases |ops|
  {
    hide Inv, Conserved, Known, Step, Enter, Allowed, Orderly;
    if ops != [] {
      StepKeeps(n, fdMax, ops[0]);
      StepConserves(kind, n, fdMax, ops[0], l);
      StepKnows(kind, n, fdMax, ops[0], l);
      var m := Step(n, fdMax, ops[0]);
      RunConserves(kind, m, fdMax, ops[1..], Enter(kind, n, fdMax, ops[0], m, l));
    }
  }

  /**
    For every run in which nobody reads from a connection that already has a parked reader: a
    callback passed in once has been called once, or has not been called and is parked on the very
    connection it was passed for, which is then alive. So it has been called by the time that
    connection is closed or its number is reused.
   */
  lemma EveryCallbackIsSettledOnce(kind: Kind, fdMax: nat, ops: seq<Op>, k: nat)
    requires Inv(Init(), fdMax) && RunAllowed(Init(), fdMax, ops) && RunOrderly(kind, Init(), fdMax, ops)
    requires var calls := LedgerOf(kind, Init(), fdMax, ops, Ledger([], [])).calls;
             k < |calls| && forall j :: 0 <= j < |calls| && j != k ==> calls[j].cb != calls[k].cb
    ensures var n, l := After(Init(), fdMax, ops), LedgerOf(kind, Init(), fdMax, ops, Ledger([], []));
            var call := l.calls[k];
            && Fires(kind, l.outputs, call.cb) <= 1
            && (Fires(kind, l.outputs, call.cb) == 0 <==>
                call.id.Some? && Alive(n, call.id.value) && Pending(kind, n.conns[call.id.value.fd]) == Some(call.cb))
  {
    hide Step, Enter, Allowed, Orderly;
    var l0 := Ledger([], []);
    assert Conserved(kind, Init(), l0) && Known(kind, Init(), l0);
    RunConserves(kind, Init(), fdMax, ops, l0);
    var n, l := After(Init(), fdMax, ops), LedgerOf(kind, Init(), fdMax, ops, l0);
    PassesOnce(l.calls, k);
    OnceOnly(kind, n, fdMax, l, k);
  }

  lemma OnceOnly(kind: Kind, n: Node, fdMax: nat, l: Ledger, k: nat)
    requires Inv(n, fdMax) && Conserved(kind, n, l) && Known(kind, n, l)
    requires k < |l.calls| && forall j :: 0 <= j < |l.calls| && j != k ==> l.calls[j].cb != l.calls[k].cb
    requires Passes(l.calls, l.calls[k].cb) == 1
    ensures var call := l.calls[k];
            && Fires(kind, l.outputs, call.cb) <= 1
            && (Fires(kind, l.outputs, call.cb) == 0 <==>
                call.id.Some? && Alive(n, call.id.value) && Pending(kind, n.conns[call.id.value.fd]) == Some(call.cb))
  {
    hide Fires, Passes;
    var call := l.calls[k];
    var owed := Owed(kind, n.conns, call.cb);
    assert Fires(kind, l.outputs, call.cb) + |owed| == 1;
    if owed != {} {
      var fd :| fd in owed;
      assert Call(Some(IdOf(n, fd)), call.cb) in l.calls;
      assert call.id == Some(IdOf(n, fd));
      if !Live(n, fd) {
        DeadOwesNothing(kind, n, fdMax, fd);
      }
    } else if call.id.Some? && Alive(n, call.id.value) {
      assert call.id.value.fd !in owed;
    }
  }
}
