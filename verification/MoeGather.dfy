/**
  The gather kernel of `MUL_MAT_ID`: one workgroup per expert scans all (slot, token) pairs with
  strided threads, and an atomic counter hands out positions in the expert's region.

  A schedule is any order in which the threads of all workgroups take their atomic actions:
  clearing the counter, passing a barrier, one atomic increment, and each of the two buffer writes.
*/
module MoeGather {
  import opened Arith
  import opened MoeShape

  /** Where a thread stands; `Claimed` and `Half` hold a position whose buffer writes are pending. */
  datatype Pc =
    | Start | Ready | Scan(next: nat)
    | Claimed(i: nat, pos: nat) | Half(i: nat, pos: nat)
    | AtEnd | Done

  datatype Group = Group(count: nat, threads: seq<Pc>)

  /** All launched workgroups and the three shared buffers. */
  datatype State = State(groups: seq<Group>, used: seq<nat>, tokens: seq<nat>, counts: seq<nat>)

  /** What one workgroup can see: its counter and threads, its regions, and its reported count. */
  datatype Local = Local(group: Group, used: seq<nat>, tokens: seq<nat>, reported: nat)

  ghost predicate WellShaped(c: Shape, s: State) {
    && c.Valid() && |s.groups| >= c.nExpert
    && |s.used| == |s.tokens| == c.nExpert * c.nTokens && |s.counts| == c.nExpert
    && (forall w :: 0 <= w < |s.groups| ==> |s.groups[w].threads| == c.gatherSize)
  }

  /** Just launched: buffers and counters hold anything; workgroups beyond the experts have no work. */
  ghost predicate Initial(c: Shape, s: State) {
    && WellShaped(c, s)
    && (forall w, t :: 0 <= w < |s.groups| && 0 <= t < c.gatherSize ==>
          s.groups[w].threads[t] == if w < c.nExpert then Start else Done)
  }

  /** A barrier opens when no thread of the workgroup is still in front of it. */
  predicate CanMove(g: Group, t: nat)
    requires t < |g.threads|
  {
    match g.threads[t]
    case Ready => forall u :: 0 <= u < |g.threads| ==> g.threads[u] != Start
    case AtEnd => forall u :: 0 <= u < |g.threads| ==> g.threads[u].AtEnd? || g.threads[u].Done?
    case Done => false
    case _ => true
  }

  predicate Runnable(s: State, w: nat, t: nat) {
    w < |s.groups| && t < |s.groups[w].threads| && CanMove(s.groups[w], t)
  }

  function NextPc(c: Shape, r: Routing, e: nat, g: Group, t: nat): Pc
    requires t < |g.threads| && c.nUsed > 0
  {
    match g.threads[t]
    case Start => Ready
    case Ready => Scan(t)
    case Scan(i) =>
      if i >= c.Pairs() then AtEnd
      else if r.ExpertOf(c, i) == e then Claimed(i, g.count)
      else Scan(i + c.gatherSize)
    case Claimed(i, pos) => Half(i, pos)
    case Half(i, pos) => Scan(i + c.gatherSize)
    case AtEnd => Done
    case Done => Done
  }

  function NextCount(c: Shape, r: Routing, e: nat, g: Group, t: nat): nat
    requires t < |g.threads| && c.nUsed > 0
  {
    match g.threads[t]
    case Start => if t == 0 then 0 else g.count
    case Scan(i) => if i < c.Pairs() && r.ExpertOf(c, i) == e then g.count + 1 else g.count
    case _ => g.count
  }

  function NextGroup(c: Shape, r: Routing, e: nat, g: Group, t: nat): Group
    requires t < |g.threads| && c.nUsed > 0
  {
    Group(NextCount(c, r, e, g, t), g.threads[t := NextPc(c, r, e, g, t)])
  }

  /** A store to a storage buffer; one past its end has no effect. */
  function Stored(buffer: seq<nat>, cell: nat, value: nat): seq<nat> {
    if cell < |buffer| then buffer[cell := value] else buffer
  }

  /** Thread `t` of workgroup `w` takes its next atomic action. */
  function Step(c: Shape, r: Routing, s: State, w: nat, t: nat): State
    requires c.nUsed > 0 && Runnable(s, w, t)
  {
    var g := s.groups[w];
    var moved := s.(groups := s.groups[w := NextGroup(c, r, w, g, t)]);
    match g.threads[t]
    case Claimed(i, pos) => moved.(used := Stored(s.used, RegionCell(c, w, pos), SlotOf(c, i)))
    case Half(i, pos) => moved.(tokens := Stored(s.tokens, RegionCell(c, w, pos), TokenOf(c, i)))
    case AtEnd => if t == 0 then moved.(counts := Stored(s.counts, w, g.count)) else moved
    case _ => moved
  }

  function LocalStep(c: Shape, r: Routing, e: nat, l: Local, t: nat): Local
    requires c.nUsed > 0 && t < |l.group.threads|
  {
    var g := l.group;
    var moved := l.(group := NextGroup(c, r, e, g, t));
    match g.threads[t]
    case Claimed(i, pos) => moved.(used := Stored(l.used, pos, SlotOf(c, i)))
    case Half(i, pos) => moved.(tokens := Stored(l.tokens, pos, TokenOf(c, i)))
    case AtEnd => if t == 0 then moved.(reported := g.count) else moved
    case _ => moved
  }

  // ----- one workgroup -----

  /** The thread has decided about pair `i`. */
  predicate Past(pc: Pc, i: nat) {
    match pc
    case Scan(next) => i < next
    case Claimed(j, _) => i <= j
    case Half(j, _) => i <= j
    case AtEnd => true
    case Done => true
    case _ => false
  }

  ghost predicate ThreadOk(c: Shape, r: Routing, e: nat, log: seq<nat>, pc: Pc, t: nat)
    requires c.Valid()
  {
    match pc
    case Scan(i) => Lane(i, c.gatherSize) == t
    case Claimed(i, pos) => Lane(i, c.gatherSize) == t && i < c.Pairs() && r.ExpertOf(c, i) == e && pos < |log| && log[pos] == i
    case Half(i, pos) => Lane(i, c.gatherSize) == t && i < c.Pairs() && r.ExpertOf(c, i) == e && pos < |log| && log[pos] == i
    case _ => true
  }

  /** `log` lists the pairs in the order their atomic increments happened. */
  ghost predicate LogOk(c: Shape, r: Routing, e: nat, threads: seq<Pc>, log: seq<nat>)
    requires c.Valid() && |threads| == c.gatherSize
  {
    && Distinct(log)
    && (forall p :: 0 <= p < |log| ==>
          log[p] < c.Pairs() && r.ExpertOf(c, log[p]) == e && Past(threads[Lane(log[p], c.gatherSize)], log[p]))
    && (forall i: nat :: i < c.Pairs() && r.ExpertOf(c, i) == e && Past(threads[Lane(i, c.gatherSize)], i) ==> i in log)
  }

  ghost predicate CellsOk(c: Shape, l: Local, log: seq<nat>)
    requires c.Valid() && |l.group.threads| == c.gatherSize
  {
    && |log| <= |l.used| == |l.tokens|
    && (forall p :: 0 <= p < |log| ==>
          var pc := l.group.threads[Lane(log[p], c.gatherSize)];
          && (pc != Claimed(log[p], p) ==> l.used[p] == SlotOf(c, log[p]))
          && (pc != Claimed(log[p], p) && pc != Half(log[p], p) ==> l.tokens[p] == TokenOf(c, log[p])))
  }

  ghost predicate PhasesOk(g: Group, log: seq<nat>, reported: nat)
    requires |g.threads| > 0
  {
    && ((exists t :: 0 <= t < |g.threads| && g.threads[t] == Start) ==>
          log == [] && forall t :: 0 <= t < |g.threads| ==> g.threads[t].Start? || g.threads[t].Ready?)
    && ((exists t :: 0 <= t < |g.threads| && g.threads[t] == Done) ==>
          forall t :: 0 <= t < |g.threads| ==> g.threads[t].AtEnd? || g.threads[t].Done?)
    && (g.threads[0] != Start ==> g.count == |log|)
    && (g.threads[0] == Done ==> reported == g.count)
  }

  ghost predicate LocalInv(c: Shape, r: Routing, e: nat, l: Local, log: seq<nat>) {
    && c.Valid() && |l.group.threads| == c.gatherSize
    && |l.used| == |l.tokens| == c.nTokens
    && (forall t :: 0 <= t < c.gatherSize ==> ThreadOk(c, r, e, log, l.group.threads[t], t))
    && LogOk(c, r, e, l.group.threads, log)
    && CellsOk(c, l, log)
    && PhasesOk(l.group, log, l.reported)
  }

  lemma SameTokenDiffers(c: Shape, r: Routing, i: nat, j: nat)
    requires c.Valid() && r.Valid(c) && i < c.Pairs() && j < c.Pairs() && i != j
    requires r.ExpertOf(c, i) == r.ExpertOf(c, j)
    ensures TokenOf(c, i) != TokenOf(c, j)
  {
    PairInRange(c, i);
    PairInRange(c, j);
  }

  /** Because no token routes twice to one expert, an expert gathers at most one pair per token. */
  lemma {:induction false} RegionNeverSpills(c: Shape, r: Routing, e: nat, log: seq<nat>)
    requires c.Valid() && r.Valid(c) && Distinct(log)
    requires forall p :: 0 <= p < |log| ==> log[p] < c.Pairs() && r.ExpertOf(c, log[p]) == e
    ensures |log| <= c.nTokens
  {
    var rows := seq(|log|, p requires 0 <= p < |log| => TokenOf(c, log[p]));
    forall p, q | 0 <= p < q < |log|
      ensures rows[p] != rows[q]
    {
      SameTokenDiffers(c, r, log[p], log[q]);
    }
    DistinctSize(rows);
    forall p | 0 <= p < |log|
      ensures rows[p] < c.nTokens
    {
      PairInRange(c, log[p]);
    }
    SubsetSize(ToSet(rows), Below(c.nTokens));
  }

  /** The log after thread `t` moves: an atomic increment appends the pair it claims. */
  function NextLog(c: Shape, r: Routing, e: nat, g: Group, t: nat, log: seq<nat>): seq<nat>
    requires t < |g.threads| && c.nUsed > 0
  {
    match g.threads[t]
    case Scan(i) => if i < c.Pairs() && r.ExpertOf(c, i) == e then log + [i] else log
    case _ => log
  }

  lemma StartKeeps(c: Shape, r: Routing, e: nat, l: Local, log: seq<nat>, t: nat)
    requires LocalInv(c, r, e, l, log) && t < c.gatherSize && l.group.threads[t].Start?
    ensures LocalInv(c, r, e, LocalStep(c, r, e, l, t), log)
  {
  }

  lemma ReadyKeeps(c: Shape, r: Routing, e: nat, l: Local, log: seq<nat>, t: nat)
    requires LocalInv(c, r, e, l, log) && t < c.gatherSize && l.group.threads[t].Ready? && CanMove(l.group, t)
    ensures LocalInv(c, r, e, LocalStep(c, r, e, l, t), log)
  {
    forall i: nat | i < t
      ensures Lane(i, c.gatherSize) != t
    {
      LaneOfStart(t, i, c.gatherSize);
    }
    LaneOfStart(t, t, c.gatherSize);
  }

  /** Moving a thread's scan position past `i` decides about `i` and about nothing else. */
  lemma PastMoves(c: Shape, threads: seq<Pc>, t: nat, i: nat, pc: Pc, j: nat)
    requires c.Valid() && |threads| == c.gatherSize && t < c.gatherSize && threads[t] == Scan(i)
    requires Lane(i, c.gatherSize) == t && (pc == Scan(i + c.gatherSize) || (pc.Claimed? && pc.i == i))
    ensures Past(threads[t := pc][Lane(j, c.gatherSize)], j) <==> Past(threads[Lane(j, c.gatherSize)], j) || j == i
  {
    if Lane(j, c.gatherSize) == t && i <= j < i + c.gatherSize {
      StrideUnique(i, j, c.gatherSize);
    }
  }

  lemma ScanLog(c: Shape, r: Routing, e: nat, g: Group, log: seq<nat>, t: nat)
    requires c.Valid() && |g.threads| == c.gatherSize && LogOk(c, r, e, g.threads, log)
    requires t < c.gatherSize && g.threads[t].Scan? && Lane(g.threads[t].next, c.gatherSize) == t && g.threads[t].next < c.Pairs()
    ensures LogOk(c, r, e, NextGroup(c, r, e, g, t).threads, NextLog(c, r, e, g, t, log))
  {
    var i, pc := g.threads[t].next, NextPc(c, r, e, g, t);
    var threads := g.threads[t := pc];
    forall j: nat
      ensures Past(threads[Lane(j, c.gatherSize)], j) <==> Past(g.threads[Lane(j, c.gatherSize)], j) || j == i
    {
      PastMoves(c, g.threads, t, i, pc, j);
    }
  }

  lemma ScanCells(c: Shape, r: Routing, e: nat, l: Local, log: seq<nat>, t: nat)
    requires c.Valid() && |l.group.threads| == c.gatherSize && CellsOk(c, l, log) && LogOk(c, r, e, l.group.threads, log)
    requires t < c.gatherSize && l.group.threads[t].Scan? && l.group.count == |log|
    requires Lane(l.group.threads[t].next, c.gatherSize) == t
    requires |NextLog(c, r, e, l.group, t, log)| <= |l.used|
    ensures CellsOk(c, LocalStep(c, r, e, l, t), NextLog(c, r, e, l.group, t, log))
  {
  }

  lemma ScanThreads(c: Shape, r: Routing, e: nat, g: Group, log: seq<nat>, t: nat)
    requires c.Valid() && |g.threads| == c.gatherSize && t < c.gatherSize && g.threads[t].Scan? && g.count == |log|
    requires forall u :: 0 <= u < c.gatherSize ==> ThreadOk(c, r, e, log, g.threads[u], u)
    ensures forall u :: 0 <= u < c.gatherSize ==> ThreadOk(c, r, e, NextLog(c, r, e, g, t, log), NextGroup(c, r, e, g, t).threads[u], u)
  {
    assert ThreadOk(c, r, e, log, g.threads[t], t);
    StrideNext(g.threads[t].next, c.gatherSize);
  }

  lemma ScanKeeps(c: Shape, r: Routing, e: nat, l: Local, log: seq<nat>, t: nat)
    requires LocalInv(c, r, e, l, log) && r.Valid(c) && t < c.gatherSize && l.group.threads[t].Scan?
    ensures LocalInv(c, r, e, LocalStep(c, r, e, l, t), NextLog(c, r, e, l.group, t, log))
  {
    ScanThreads(c, r, e, l.group, log, t);
    assert ThreadOk(c, r, e, log, l.group.threads[t], t);
    if l.group.threads[t].next < c.Pairs() {
      ScanLog(c, r, e, l.group, log, t);
      RegionNeverSpills(c, r, e, NextLog(c, r, e, l.group, t, log));
    }
    ScanCells(c, r, e, l, log, t);
  }

  /** Storing moves no thread past a pair it was not past already. */
  lemma StoreLog(c: Shape, r: Routing, e: nat, g: Group, log: seq<nat>, t: nat)
    requires c.Valid() && |g.threads| == c.gatherSize && LogOk(c, r, e, g.threads, log) && t < c.gatherSize
    requires (g.threads[t].Claimed? || g.threads[t].Half?) && Lane(g.threads[t].i, c.gatherSize) == t
    ensures LogOk(c, r, e, NextGroup(c, r, e, g, t).threads, log)
  {
    var i := g.threads[t].i;
    forall j: nat | i < j < i + c.gatherSize
      ensures Lane(j, c.gatherSize) != t
    {
      if Lane(j, c.gatherSize) == t {
        StrideUnique(i, j, c.gatherSize);
      }
    }
  }

  lemma StoreCells(c: Shape, r: Routing, e: nat, l: Local, log: seq<nat>, t: nat)
    requires c.Valid() && |l.group.threads| == c.gatherSize && CellsOk(c, l, log) && Distinct(log) && t < c.gatherSize
    requires l.group.threads[t].Claimed? || l.group.threads[t].Half?
    requires ThreadOk(c, r, e, log, l.group.threads[t], t)
    ensures CellsOk(c, LocalStep(c, r, e, l, t), log)
  {
  }

  lemma StoreKeeps(c: Shape, r: Routing, e: nat, l: Local, log: seq<nat>, t: nat)
    requires LocalInv(c, r, e, l, log) && t < c.gatherSize
    requires l.group.threads[t].Claimed? || l.group.threads[t].Half?
    ensures LocalInv(c, r, e, LocalStep(c, r, e, l, t), log)
  {
    assert ThreadOk(c, r, e, log, l.group.threads[t], t);
    StrideNext(l.group.threads[t].i, c.gatherSize);
    StoreLog(c, r, e, l.group, log, t);
    StoreCells(c, r, e, l, log, t);
  }

  lemma EndKeeps(c: Shape, r: Routing, e: nat, l: Local, log: seq<nat>, t: nat)
    requires LocalInv(c, r, e, l, log) && t < c.gatherSize && l.group.threads[t].AtEnd? && CanMove(l.group, t)
    ensures LocalInv(c, r, e, LocalStep(c, r, e, l, t), log)
  {
  }

  lemma LocalStepKeeps(c: Shape, r: Routing, e: nat, l: Local, log: seq<nat>, t: nat)
    requires LocalInv(c, r, e, l, log) && r.Valid(c) && t < c.gatherSize && CanMove(l.group, t)
    ensures LocalInv(c, r, e, LocalStep(c, r, e, l, t), NextLog(c, r, e, l.group, t, log))
  {
    match l.group.threads[t]
    case Start => StartKeeps(c, r, e, l, log, t);
    case Ready => ReadyKeeps(c, r, e, l, log, t);
    case Scan(_) => ScanKeeps(c, r, e, l, log, t);
    case Claimed(_, _) => StoreKeeps(c, r, e, l, log, t);
    case Half(_, _) => StoreKeeps(c, r, e, l, log, t);
    case AtEnd => EndKeeps(c, r, e, l, log, t);
  }

  // ----- all workgroups -----

  /** Where an expert's region begins. */
  function Base(c: Shape, e: nat): nat { RegionCell(c, e, 0) }

  lemma RegionFits(c: Shape, e: nat)
    requires e < c.nExpert
    ensures Base(c, e) + c.nTokens <= c.nExpert * c.nTokens
  {
    MulLe(e + 1, c.nExpert, c.nTokens);
  }

  /** Expert `e`'s region of a gathered buffer. */
  function Region(c: Shape, buffer: seq<nat>, e: nat): seq<nat>
    requires e < c.nExpert && |buffer| == c.nExpert * c.nTokens
  {
    RegionFits(c, e);
    buffer[Base(c, e)..Base(c, e) + c.nTokens]
  }

  function Project(c: Shape, s: State, e: nat): Local
    requires e < c.nExpert <= |s.groups| && e < |s.counts|
    requires |s.used| == |s.tokens| == c.nExpert * c.nTokens
  {
    Local(s.groups[e], Region(c, s.used, e), Region(c, s.tokens, e), s.counts[e])
  }

  ghost predicate Inv(c: Shape, r: Routing, s: State, logs: seq<seq<nat>>) {
    && WellShaped(c, s) && |logs| == |s.groups|
    && (forall e :: 0 <= e < c.nExpert ==> LocalInv(c, r, e, Project(c, s, e), logs[e]))
    && (forall w, t :: c.nExpert <= w < |s.groups| && 0 <= t < c.gatherSize ==> s.groups[w].threads[t] == Done)
  }

  lemma RegionsApart(c: Shape, e: nat, other: nat, p: nat)
    requires e < c.nExpert && other < c.nExpert
    ensures Base(c, e) + c.nTokens <= c.nExpert * c.nTokens && Base(c, other) + c.nTokens <= c.nExpert * c.nTokens
    ensures e < other ==> Base(c, e) + c.nTokens <= Base(c, other)
    ensures other < e ==> Base(c, other) + c.nTokens <= Base(c, e)
    ensures RegionCell(c, e, p) == Base(c, e) + p
  {
    RegionFits(c, e);
    RegionFits(c, other);
    if e < other {
      MulLe(e + 1, other, c.nTokens);
    } else if other < e {
      MulLe(other + 1, e, c.nTokens);
    }
  }

  lemma SliceStored(buffer: seq<nat>, base: nat, p: nat, value: nat, other: nat, w: nat)
    requires base + w <= |buffer| && other + w <= |buffer| && p < w
    requires other == base || other + w <= base || base + w <= other
    ensures Stored(buffer, base + p, value)[other..other + w]
         == if other == base then Stored(buffer[base..base + w], p, value) else buffer[other..other + w]
  {
  }

  /** A store into one region changes that region only. */
  lemma RegionStored(c: Shape, buffer: seq<nat>, e: nat, p: nat, value: nat, other: nat)
    requires e < c.nExpert && other < c.nExpert && |buffer| == c.nExpert * c.nTokens && p < c.nTokens
    ensures RegionCell(c, e, p) < |buffer|
    ensures Region(c, Stored(buffer, RegionCell(c, e, p), value), other)
         == if other == e then Stored(Region(c, buffer, e), p, value) else Region(c, buffer, other)
  {
    hide Stored, Base, RegionCell;
    RegionsApart(c, e, other, p);
    SliceStored(buffer, Base(c, e), p, value, Base(c, other), c.nTokens);
  }

  lemma ProjectStep(c: Shape, r: Routing, s: State, logs: seq<seq<nat>>, w: nat, t: nat, e: nat)
    requires Inv(c, r, s, logs) && Runnable(s, w, t) && w < c.nExpert && e < c.nExpert
    ensures WellShaped(c, Step(c, r, s, w, t))
    ensures Project(c, Step(c, r, s, w, t), e) == if e == w then LocalStep(c, r, e, Project(c, s, e), t) else Project(c, s, e)
  {
    assert LocalInv(c, r, w, Project(c, s, w), logs[w]);
    match s.groups[w].threads[t]
    case Claimed(i, pos) => RegionStored(c, s.used, w, pos, SlotOf(c, i), e);
    case Half(i, pos) => RegionStored(c, s.tokens, w, pos, TokenOf(c, i), e);
    case _ =>
  }

  lemma StepKeeps(c: Shape, r: Routing, s: State, logs: seq<seq<nat>>, w: nat, t: nat) returns (logs': seq<seq<nat>>)
    requires Inv(c, r, s, logs) && r.Valid(c) && Runnable(s, w, t)
    ensures Inv(c, r, Step(c, r, s, w, t), logs')
  {
    assert w < c.nExpert;
    logs' := logs[w := NextLog(c, r, w, s.groups[w], t, logs[w])];
    ProjectStep(c, r, s, logs, w, t, w);
    LocalStepKeeps(c, r, w, Project(c, s, w), logs[w], t);
    forall e | 0 <= e < c.nExpert
      ensures LocalInv(c, r, e, Project(c, Step(c, r, s, w, t), e), logs'[e])
    {
      ProjectStep(c, r, s, logs, w, t, e);
    }
  }

  lemma InitialInv(c: Shape, r: Routing, s: State) returns (logs: seq<seq<nat>>)
    requires Initial(c, s)
    ensures Inv(c, r, s, logs)
  {
    logs := seq(|s.groups|, w => []);
    forall e | 0 <= e < c.nExpert
      ensures LocalInv(c, r, e, Project(c, s, e), logs[e])
    {
      RegionFits(c, e);
    }
  }

  predicate AllDone(s: State) {
    forall w, t :: 0 <= w < |s.groups| && 0 <= t < |s.groups[w].threads| ==> s.groups[w].threads[t].Done?
  }

  /** Barriers never deadlock: until every thread is done, some thread can move. */
  lemma SomeThreadCanMove(c: Shape, r: Routing, s: State, logs: seq<seq<nat>>) returns (w: nat, t: nat)
    requires Inv(c, r, s, logs) && !AllDone(s)
    ensures Runnable(s, w, t)
  {
    var w0, t0 :| 0 <= w0 < |s.groups| && 0 <= t0 < |s.groups[w0].threads| && !s.groups[w0].threads[t0].Done?;
    w, t := w0, t0;
    var g := s.groups[w];
    if !CanMove(g, t) {
      if g.threads[t].Ready? {
        t :| 0 <= t < |g.threads| && g.threads[t] == Start;
      } else {
        t :| 0 <= t < |g.threads| && !(g.threads[t].AtEnd? || g.threads[t].Done?);
        if !CanMove(g, t) {
          t :| 0 <= t < |g.threads| && g.threads[t] == Start;
        }
      }
    }
  }

  // ----- the work left, which every action lowers -----

  function Left(c: Shape, i: nat): nat { if i < c.Pairs() then c.Pairs() - i else 0 }

  function Rank(c: Shape, pc: Pc): nat {
    match pc
    case Start => 4 * c.Pairs() + 6
    case Ready => 4 * c.Pairs() + 5
    case Scan(i) => 4 * Left(c, i) + 4
    case Claimed(i, _) => 4 * Left(c, i) + 3
    case Half(i, _) => 4 * Left(c, i) + 2
    case AtEnd => 1
    case Done => 0
  }

  function Ranks(c: Shape, threads: seq<Pc>): (ranks: seq<nat>)
    ensures |ranks| == |threads| && forall t :: 0 <= t < |threads| ==> ranks[t] == Rank(c, threads[t])
  {
    seq(|threads|, t requires 0 <= t < |threads| => Rank(c, threads[t]))
  }

  function GroupWork(c: Shape, g: Group): nat { Sum(Ranks(c, g.threads)) }

  function Works(c: Shape, groups: seq<Group>): (works: seq<nat>)
    ensures |works| == |groups| && forall w :: 0 <= w < |groups| ==> works[w] == GroupWork(c, groups[w])
  {
    seq(|groups|, w requires 0 <= w < |groups| => GroupWork(c, groups[w]))
  }

  function Work(c: Shape, s: State): nat { Sum(Works(c, s.groups)) }

  lemma RankDrops(c: Shape, r: Routing, e: nat, g: Group, log: seq<nat>, t: nat)
    requires c.Valid() && t < |g.threads| && CanMove(g, t) && t < c.gatherSize
    requires ThreadOk(c, r, e, log, g.threads[t], t)
    ensures Rank(c, NextPc(c, r, e, g, t)) < Rank(c, g.threads[t])
  {
  }

  lemma GroupWorkDrops(c: Shape, g: Group, t: nat, pc: Pc, count: nat)
    requires t < |g.threads| && Rank(c, pc) < Rank(c, g.threads[t])
    ensures GroupWork(c, Group(count, g.threads[t := pc])) < GroupWork(c, g)
  {
    assert Ranks(c, g.threads[t := pc]) == Ranks(c, g.threads)[t := Rank(c, pc)];
    SumUpdate(Ranks(c, g.threads), t, Rank(c, pc));
  }

  lemma WorkDrops(c: Shape, s: State, s': State, w: nat, g: Group)
    requires w < |s.groups| && GroupWork(c, g) < GroupWork(c, s.groups[w]) && s'.groups == s.groups[w := g]
    ensures Work(c, s') < Work(c, s)
  {
    assert Works(c, s'.groups) == Works(c, s.groups)[w := GroupWork(c, g)];
    SumUpdate(Works(c, s.groups), w, GroupWork(c, g));
  }

  lemma StepWorks(c: Shape, r: Routing, s: State, logs: seq<seq<nat>>, w: nat, t: nat)
    requires Inv(c, r, s, logs) && Runnable(s, w, t)
    ensures Work(c, Step(c, r, s, w, t)) < Work(c, s)
  {
    assert w < c.nExpert;
    assert LocalInv(c, r, w, Project(c, s, w), logs[w]);
    var g := s.groups[w];
    RankDrops(c, r, w, g, logs[w], t);
    GroupWorkDrops(c, g, t, NextPc(c, r, w, g, t), NextCount(c, r, w, g, t));
    WorkDrops(c, s, Step(c, r, s, w, t), w, NextGroup(c, r, w, g, t));
  }

  // ----- what is there when all threads are done -----

  /** The expert of every pair, in scan order. */
  ghost function Experts(c: Shape, r: Routing): seq<int>
    requires c.nUsed > 0
  {
    seq(c.Pairs(), i requires 0 <= i => r.ExpertOf(c, i))
  }

  /** The first `n` pairs' indices that are routed to expert `e`. */
  ghost function Matched(experts: seq<int>, e: nat, n: nat): (pairs: set<nat>)
    requires n <= |experts|
    ensures forall i :: i in pairs <==> 0 <= i < n && experts[i] == e
  {
    if n == 0 then {}
    else Matched(experts, e, n - 1) + if experts[n - 1] == e then {n - 1} else {}
  }

  ghost function Tally(experts: seq<int>, nExpert: nat, n: nat): seq<nat>
    requires n <= |experts|
  {
    seq(nExpert, e requires 0 <= e < nExpert => |Matched(experts, e, n)|)
  }

  lemma TallyStep(experts: seq<int>, nExpert: nat, n: nat)
    requires n < |experts| && 0 <= experts[n] < nExpert
    ensures Tally(experts, nExpert, n + 1)
         == Tally(experts, nExpert, n)[experts[n] := Tally(experts, nExpert, n)[experts[n]] + 1]
  {
    var before, after := Tally(experts, nExpert, n), Tally(experts, nExpert, n + 1);
    forall e: nat | e < nExpert
      ensures after[e] == if e == experts[n] then before[e] + 1 else before[e]
    {
      var pairs := Matched(experts, e, n);
      assert n !in pairs;
      assert Matched(experts, e, n + 1) == if experts[n] == e then pairs + {n} else pairs;
    }
  }

  lemma {:induction false} TallySums(experts: seq<int>, nExpert: nat, n: nat)
    requires n <= |experts| && forall i :: 0 <= i < n ==> 0 <= experts[i] < nExpert
    ensures Sum(Tally(experts, nExpert, n)) == n
  {
    if n == 0 {
      SumZero(Tally(experts, nExpert, 0));
    } else {
      TallySums(experts, nExpert, n - 1);
      var before, e := Tally(experts, nExpert, n - 1), experts[n - 1];
      TallyStep(experts, nExpert, n - 1);
      SumUpdate(before, e, before[e] + 1);
    }
  }

  lemma LogIsMatched(c: Shape, r: Routing, e: nat, threads: seq<Pc>, log: seq<nat>)
    requires c.Valid() && |threads| == c.gatherSize && LogOk(c, r, e, threads, log)
    requires forall t :: 0 <= t < |threads| ==> threads[t].Done?
    ensures |log| == |Matched(Experts(c, r), e, c.Pairs())|
  {
    DistinctSize(log);
    forall i | i in Matched(Experts(c, r), e, c.Pairs())
      ensures i in log
    {
      assert Past(threads[Lane(i, c.gatherSize)], i);
    }
    assert ToSet(log) == Matched(Experts(c, r), e, c.Pairs());
  }

  /** What was stored at each position of a finished region. */
  lemma DoneCells(c: Shape, r: Routing, s: State, e: nat, log: seq<nat>, p: nat)
    requires WellShaped(c, s) && r.Valid(c) && e < c.nExpert && AllDone(s) && p < |log|
    requires LocalInv(c, r, e, Project(c, s, e), log)
    ensures RegionCell(c, e, p) < |s.used| == |s.tokens| && log[p] < c.Pairs() && r.ExpertOf(c, log[p]) == e
    ensures s.used[RegionCell(c, e, p)] == SlotOf(c, log[p]) < c.nUsed
    ensures s.tokens[RegionCell(c, e, p)] == TokenOf(c, log[p]) < c.nTokens
  {
    RegionFits(c, e);
    PairInRange(c, log[p]);
    assert s.groups[e].threads[Lane(log[p], c.gatherSize)].Done?;
    assert Region(c, s.used, e)[p] == s.used[RegionCell(c, e, p)];
    assert Region(c, s.tokens, e)[p] == s.tokens[RegionCell(c, e, p)];
  }

  /** Every pair routed to the expert has a position in the finished region. */
  lemma DoneCovers(c: Shape, r: Routing, s: State, e: nat, log: seq<nat>, token: nat, slot: nat) returns (p: nat)
    requires WellShaped(c, s) && r.Valid(c) && e < c.nExpert && AllDone(s)
    requires LocalInv(c, r, e, Project(c, s, e), log)
    requires token < c.nTokens && slot < c.nUsed && r.At(token, slot) == e
    ensures p < |log| && SlotOf(c, log[p]) == slot && TokenOf(c, log[p]) == token
  {
    PairOf(c, token, slot);
    var i := PairAt(c, token, slot);
    assert Past(s.groups[e].threads[Lane(i, c.gatherSize)], i);
    p :| 0 <= p < |log| && log[p] == i;
  }

  lemma DoneCount(c: Shape, r: Routing, s: State, e: nat, log: seq<nat>)
    requires WellShaped(c, s) && r.Valid(c) && e < c.nExpert && AllDone(s)
    requires LocalInv(c, r, e, Project(c, s, e), log)
    ensures s.counts[e] == |log| <= c.nTokens && Distinct(log) && c.Valid()
  {
  }

  lemma DoneRegion(c: Shape, r: Routing, s: State, e: nat, log: seq<nat>)
    requires WellShaped(c, s) && r.Valid(c) && e < c.nExpert && AllDone(s)
    requires LocalInv(c, r, e, Project(c, s, e), log)
    ensures RegionGathered(c, r, s.used, s.tokens, s.counts[e], e)
  {
    hide LocalInv, WellShaped, AllDone, RegionCell, SlotOf, TokenOf, Project;
    DoneCount(c, r, s, e, log);
    forall p: nat | p < |log|
      ensures RegionCell(c, e, p) < |s.used| == |s.tokens| && log[p] < c.Pairs() && r.ExpertOf(c, log[p]) == e
      ensures s.used[RegionCell(c, e, p)] == SlotOf(c, log[p]) < c.nUsed
      ensures s.tokens[RegionCell(c, e, p)] == TokenOf(c, log[p]) < c.nTokens
    {
      DoneCells(c, r, s, e, log, p);
    }
    forall p: nat, q: nat | p < q < |log|
      ensures s.tokens[RegionCell(c, e, p)] != s.tokens[RegionCell(c, e, q)]
    {
      SameTokenDiffers(c, r, log[p], log[q]);
    }
    forall token: nat, slot: nat | token < c.nTokens && slot < c.nUsed && r.At(token, slot) == e
      ensures exists p: nat {:trigger RegionCell(c, e, p)} :: p < |log|
                && s.used[RegionCell(c, e, p)] == slot && s.tokens[RegionCell(c, e, p)] == token
    {
      var p := DoneCovers(c, r, s, e, log, token, slot);
      assert s.used[RegionCell(c, e, p)] == slot;
    }
  }

  /** Once every thread is done, each region is exactly its expert's pairs and the counts add up. */
  lemma DoneGathers(c: Shape, r: Routing, s: State, logs: seq<seq<nat>>)
    requires Inv(c, r, s, logs) && r.Valid(c) && AllDone(s)
    ensures Gathered(c, r, s.used, s.tokens, s.counts)
    ensures Sum(s.counts) == c.Pairs()
  {
    forall e: nat | e < c.nExpert
      ensures RegionGathered(c, r, s.used, s.tokens, s.counts[e], e)
      ensures s.counts[e] == Tally(Experts(c, r), c.nExpert, c.Pairs())[e]
    {
      assert LocalInv(c, r, e, Project(c, s, e), logs[e]);
      DoneRegion(c, r, s, e, logs[e]);
      LogIsMatched(c, r, e, s.groups[e].threads, logs[e]);
    }
    assert s.counts == Tally(Experts(c, r), c.nExpert, c.Pairs());
    forall i: nat | i < c.Pairs()
      ensures 0 <= Experts(c, r)[i] < c.nExpert
    {
      PairInRange(c, i);
    }
    TallySums(Experts(c, r), c.nExpert, c.Pairs());
  }

  // ----- schedules -----

  ghost predicate Feasible(c: Shape, r: Routing, s: State, schedule: seq<(nat, nat)>)
    requires c.nUsed > 0
    decreases |schedule|
  {
    schedule == [] ||
    (Runnable(s, schedule[0].0, schedule[0].1)
     && Feasible(c, r, Step(c, r, s, schedule[0].0, schedule[0].1), schedule[1..]))
  }

  ghost function Outcome(c: Shape, r: Routing, s: State, schedule: seq<(nat, nat)>): State
    requires c.nUsed > 0 && Feasible(c, r, s, schedule)
    decreases |schedule|
  {
    if schedule == [] then s else Outcome(c, r, Step(c, r, s, schedule[0].0, schedule[0].1), schedule[1..])
  }

  lemma {:induction false} ScheduleKeeps(c: Shape, r: Routing, s: State, logs: seq<seq<nat>>, schedule: seq<(nat, nat)>)
      returns (logs': seq<seq<nat>>)
    requires Inv(c, r, s, logs) && r.Valid(c) && Feasible(c, r, s, schedule)
    ensures Inv(c, r, Outcome(c, r, s, schedule), logs')
    ensures |schedule| + Work(c, Outcome(c, r, s, schedule)) <= Work(c, s)
    decreases |schedule|
  {
    logs' := logs;
    if schedule != [] {
      var (w, t) := schedule[0];
      logs' := StepKeeps(c, r, s, logs, w, t);
      StepWorks(c, r, s, logs, w, t);
      logs' := ScheduleKeeps(c, r, Step(c, r, s, w, t), logs', schedule[1..]);
    }
  }

  /**
    For every schedule of the launched threads: it is at most `Work` actions long; a schedule that
    has not finished can be continued; one that has finished leaves every expert's region holding
    each of its pairs exactly once, with counts that add up to the number of pairs.
   */
  lemma EveryScheduleGathers(c: Shape, r: Routing, s: State, schedule: seq<(nat, nat)>)
    requires Initial(c, s) && r.Valid(c) && Feasible(c, r, s, schedule)
    ensures |schedule| <= Work(c, s)
    ensures !AllDone(Outcome(c, r, s, schedule)) ==> exists w, t :: Runnable(Outcome(c, r, s, schedule), w, t)
    ensures AllDone(Outcome(c, r, s, schedule)) ==>
              var end := Outcome(c, r, s, schedule);
              Gathered(c, r, end.used, end.tokens, end.counts) && Sum(end.counts) == c.Pairs()
  {
    var logs := InitialInv(c, r, s);
    logs := ScheduleKeeps(c, r, s, logs, schedule);
    var end := Outcome(c, r, s, schedule);
    if AllDone(end) {
      DoneGathers(c, r, end, logs);
    } else {
      var w, t := SomeThreadCanMove(c, r, end, logs);
    }
  }

  /** Every store of every schedule lands inside the region of the storing workgroup's expert. */
  lemma StoresStayInRegion(c: Shape, r: Routing, s: State, schedule: seq<(nat, nat)>, w: nat, t: nat)
    requires Initial(c, s) && r.Valid(c) && Feasible(c, r, s, schedule)
    requires w < |s.groups| && t < c.gatherSize
    ensures var end := Outcome(c, r, s, schedule);
            && w < |end.groups| && t < |end.groups[w].threads|
            && (end.groups[w].threads[t].Claimed? || end.groups[w].threads[t].Half? ==>
                  w < c.nExpert && end.groups[w].threads[t].pos < c.nTokens)
  {
    var logs := InitialInv(c, r, s);
    logs := ScheduleKeeps(c, r, s, logs, schedule);
    var end := Outcome(c, r, s, schedule);
    SameSize(c, r, s, schedule);
    if w < c.nExpert {
      assert LocalInv(c, r, w, Project(c, end, w), logs[w]);
      assert ThreadOk(c, r, w, logs[w], end.groups[w].threads[t], t);
    }
  }

  lemma {:induction false} SameSize(c: Shape, r: Routing, s: State, schedule: seq<(nat, nat)>)
    requires c.nUsed > 0 && Feasible(c, r, s, schedule)
    ensures |Outcome(c, r, s, schedule).groups| == |s.groups|
    decreases |schedule|
  {
    if schedule != [] {
      SameSize(c, r, Step(c, r, s, schedule[0].0, schedule[0].1), schedule[1..]);
    }
  }

  // ----- the dispatch -----

  /** The host's two-dimensional launch of one workgroup per expert reaches every expert. */
  function GatherLaunch(c: Shape, maxPerDim: nat): (xy: (nat, nat))
    requires c.nExpert > 0 && maxPerDim > 0
    ensures xy.0 <= maxPerDim && xy.0 * xy.1 >= c.nExpert
    ensures xy.0 * (xy.1 - 1) < c.nExpert && (xy.0 == maxPerDim || xy.1 == 1)
  {
    var x := if c.nExpert < maxPerDim then c.nExpert else maxPerDim;
    var y := CeilDiv(c.nExpert, x);
    assert x * y >= c.nExpert && x * (y - 1) < c.nExpert && (x == maxPerDim || y == 1) by {
      CeilDivCounts(c.nExpert, x, y);
      CeilDivCounts(c.nExpert, x, 0);
      CeilDivCounts(c.nExpert, x, y - 1);
      CeilDivCounts(c.nExpert, x, 1);
    }
    (x, y)
  }

  /** A pending store names a cell of its buffer. */
  lemma MoveInBounds(c: Shape, r: Routing, s: State, logs: seq<seq<nat>>, w: nat, t: nat)
    requires Inv(c, r, s, logs) && Runnable(s, w, t)
    ensures w < c.nExpert && t < c.gatherSize
    ensures s.groups[w].threads[t].Claimed? || s.groups[w].threads[t].Half? ==> RegionCell(c, w, s.groups[w].threads[t].pos) < |s.used|
  {
    assert LocalInv(c, r, w, Project(c, s, w), logs[w]);
    if s.groups[w].threads[t].Claimed? || s.groups[w].threads[t].Half? {
      assert ThreadOk(c, r, w, logs[w], s.groups[w].threads[t], t);
      RowMajorBound(w, s.groups[w].threads[t].pos, c.nExpert, c.nTokens);
    }
  }

  /**
    The gather dispatch on its buffers: as long as some thread can move, any one of them does.
    Whatever the order, the loop ends and the buffers describe the routing.
   */
  method Gather(c: Shape, r: Routing, maxPerDim: nat, counters: seq<nat>,
                used: array<nat>, tokens: array<nat>, counts: array<nat>)
    requires c.Valid() && r.Valid(c) && maxPerDim > 0
    requires |counters| == GatherLaunch(c, maxPerDim).0 * GatherLaunch(c, maxPerDim).1
    requires used.Length == tokens.Length == c.nExpert * c.nTokens && counts.Length == c.nExpert
    requires used != tokens && used != counts && tokens != counts
    modifies used, tokens, counts
    ensures Gathered(c, r, used[..], tokens[..], counts[..])
    ensures Sum(counts[..]) == c.Pairs()
  {
    hide LocalInv, Rank, RegionCell, TokenOf, SlotOf, Gathered;
    var pcs := seq(c.gatherSize, t => Start);
    var idle := seq(c.gatherSize, t => Done);
    var groups := seq(|counters|, w requires 0 <= w < |counters| => Group(counters[w], if w < c.nExpert then pcs else idle));
    ghost var s := State(groups, used[..], tokens[..], counts[..]);
    ghost var logs := InitialInv(c, r, s);
    while exists w, t :: 0 <= w < |groups| && 0 <= t < |groups[w].threads| && CanMove(groups[w], t)
      invariant Inv(c, r, s, logs)
      invariant s == State(groups, used[..], tokens[..], counts[..])
      decreases Work(c, s)
    {
      var w: nat, t: nat :| 0 <= w < |groups| && 0 <= t < |groups[w].threads| && CanMove(groups[w], t);
      ghost var next := Step(c, r, s, w, t);
      MoveInBounds(c, r, s, logs, w, t);
      StepWorks(c, r, s, logs, w, t);
      logs := StepKeeps(c, r, s, logs, w, t);
      match groups[w].threads[t] {
        case Claimed(i, pos) =>
          used[RegionCell(c, w, pos)] := SlotOf(c, i);
        case Half(i, pos) =>
          tokens[RegionCell(c, w, pos)] := TokenOf(c, i);
        case AtEnd =>
          if t == 0 {
            counts[w] := groups[w].count;
          }
        case _ =>
      }
      groups := groups[w := NextGroup(c, r, w, groups[w], t)];
      s := next;
    }
    if !AllDone(s) {
      var w, t := SomeThreadCanMove(c, r, s, logs);
    }
    DoneGathers(c, r, s, logs);
  }
}
