/**
  How the threads of a workgroup take turns between two barriers: every thread runs its own loop, and
  any thread whose loop is not over may take the next iteration.
 */
module MoeThreads {
  import opened Arith

  /** Loop variables of threads that start at their own number. */
  function Starts(total: nat): (next: seq<nat>)
    ensures |next| == total && forall th :: 0 <= th < total ==> next[th] == th
  {
    seq(total, th requires 0 <= th => th)
  }

  function Zeros(total: nat): (next: seq<nat>)
    ensures |next| == total && forall th :: 0 <= th < total ==> next[th] == 0
  {
    seq(total, th => 0)
  }

  /** Every thread stays in its own lane of indices. */
  ghost predicate Strided(next: seq<nat>) {
    |next| > 0 && forall th :: 0 <= th < |next| ==> Lane(next[th], |next|) == th
  }

  /** The thread that owns index `i` has taken it. */
  ghost predicate Taken(next: seq<nat>, i: nat)
    requires |next| > 0
  {
    i < next[Lane(i, |next|)]
  }

  lemma StartsAreStrided(total: nat)
    requires total > 0
    ensures Strided(Starts(total))
    ensures forall i: nat :: !Taken(Starts(total), i)
  {
    forall th | 0 <= th < total
      ensures Lane(th, total) == th
    {
      LaneOfStart(th, th, total);
    }
    forall i: nat
      ensures !Taken(Starts(total), i)
    {
      DivModOf(i, total);
    }
  }

  /** Thread `th` goes on to the next index of its lane. */
  function Turn(next: seq<nat>, th: nat): (after: seq<nat>)
    requires th < |next|
    ensures |after| == |next|
  {
    next[th := next[th] + |next|]
  }

  lemma TurnAt(next: seq<nat>, th: nat)
    requires th < |next|
    ensures Turn(next, th)[th] == next[th] + |next| && forall u :: 0 <= u < |next| && u != th ==> Turn(next, th)[u] == next[u]
  {
  }

  /** Of two loop variables of a thread, one that is behind is behind by a whole stride. */
  lemma StridesApart(behind: seq<nat>, ahead: seq<nat>, th: nat)
    requires Strided(behind) && Strided(ahead) && th < |behind| == |ahead| && behind[th] < ahead[th]
    ensures behind[th] + |behind| <= ahead[th]
  {
    if ahead[th] < behind[th] + |behind| {
      StrideUnique(behind[th], ahead[th], |behind|);
    }
  }

  /** A turn of thread `th` takes exactly the index it stands at: no other thread has it, and none is skipped. */
  lemma TurnTakesOne(next: seq<nat>, th: nat)
    requires Strided(next) && th < |next|
    ensures Strided(Turn(next, th))
    ensures forall i: nat :: Taken(Turn(next, th), i) <==> Taken(next, i) || i == next[th]
  {
    var total := |next|;
    StrideNext(next[th], total);
    forall i: nat
      ensures Taken(Turn(next, th), i) <==> Taken(next, i) || i == next[th]
    {
      if Lane(i, total) == th && next[th] <= i < next[th] + total {
        StrideUnique(next[th], i, total);
      }
    }
  }

  /** When every loop has passed `size`, every index below it has been taken. */
  lemma AllTaken(next: seq<nat>, size: nat)
    requires Strided(next) && forall th :: 0 <= th < |next| ==> next[th] >= size
    ensures forall i: nat :: i < size ==> Taken(next, i)
  {
    forall i: nat | i < size
      ensures Taken(next, i)
    {
      assert next[Lane(i, |next|)] >= size;
    }
  }

  // ----- what the loops still have to do -----

  function Ahead(next: seq<nat>, size: nat): (left: seq<nat>)
    ensures |left| == |next|
    ensures forall th :: 0 <= th < |next| ==> left[th] == if next[th] < size then size - next[th] else 0
  {
    seq(|next|, th requires 0 <= th < |next| => if next[th] < size then size - next[th] else 0)
  }

  function Todo(next: seq<nat>, size: nat): nat { Sum(Ahead(next, size)) }

  /** Every turn brings the phase closer to its barrier. */
  lemma TurnLowersTodo(next: seq<nat>, size: nat, th: nat)
    requires Strided(next) && th < |next| && next[th] < size
    ensures Todo(Turn(next, th), size) < Todo(next, size)
  {
    StepLowersTodo(next, size, th, next[th] + |next|);
  }

  lemma StepLowersTodo(next: seq<nat>, size: nat, th: nat, i: nat)
    requires th < |next| && next[th] < size && next[th] < i
    ensures Todo(next[th := i], size) < Todo(next, size)
  {
    var left := if i < size then size - i else 0;
    assert Ahead(next[th := i], size) == Ahead(next, size)[th := left];
    SumUpdate(Ahead(next, size), th, left);
  }
}
