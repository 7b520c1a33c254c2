/** The requester as the object its hooks and its caller update in place. */
module Requester {
  import opened Option
  import opened Lifecycle

  class Requester {
    const contextSize: nat
    var phase: Phase
    var ready: Deferred
    var exited: Deferred
    var promptWaiter: Option<Callback>
    var activeGeneration: Option<CallId>
    var cancelRequested: bool
    var stopRequested: bool
    var stopped: bool
    var calls: map<CallId, Call>
    /** What has been seen so far: callbacks handed over and called, promises settled, `stop` returning. */
    ghost var asked: seq<Callback>
    var delivered: seq<Delivery>
    var settlements: seq<CallId>
    ghost var stopReturned: bool

    ghost function View(): State
      reads this
    {
      State(phase, ready, exited, promptWaiter, activeGeneration, cancelRequested, stopRequested, stopped, calls,
            asked, delivered, settlements, stopReturned)
    }

    ghost predicate Valid()
      reads this
    {
      Inv(View())
    }

    constructor (contextSize: nat)
      ensures Valid() && View() == Fresh && this.contextSize == contextSize
    {
      this.contextSize := contextSize;
      phase, ready, exited, promptWaiter, activeGeneration := Preparing, Pending, Pending, None, None;
      cancelRequested, stopRequested, stopped, calls := false, false, false, map[];
      asked, delivered, settlements, stopReturned := [], [], [], false;
      new;
      FreshInv();
    }

    method SettleResolve(id: CallId)
      modifies `calls, `settlements
      ensures View() == SettleCall(old(View()), id, true)
    {
      if id in calls && calls[id].Settled? {
        return;
      }
      calls := calls[id := Settled(true)];
      settlements := settlements + [id];
    }

    method SettleReject(id: CallId)
      modifies `calls, `settlements
      ensures View() == SettleCall(old(View()), id, false)
    {
      if id in calls && calls[id].Settled? {
        return;
      }
      calls := calls[id := Settled(false)];
      settlements := settlements + [id];
    }

    method Abort()
      modifies this
      ensures View() == AbortGeneration(old(View()))
    {
      if activeGeneration.None? {
        return;
      }
      var done := activeGeneration.value;
      activeGeneration := None;
      cancelRequested := false;
      SettleReject(done);
    }

    method FailAll()
      modifies this
      ensures View() == Lifecycle.Fail(old(View()))
    {
      if ready.Pending? {
        ready := Rejected;
      }
      Abort();
      if exited.Pending? {
        exited := Rejected;
      }
    }

    /** Hands a text to the waiting callback, if there is one. */
    method DeliverPrompt(text: Bytes) returns (ok: bool)
      modifies this
      ensures ok == old(promptWaiter).Some? && View() == Lifecycle.Deliver(old(View()), text)
    {
      var cb := promptWaiter;
      promptWaiter := None;
      if cb.None? {
        return false;
      }
      delivered := delivered + [Delivery(cb.value, text, stopRequested)];
      return true;
    }

    method StartOrRefuse()
      requires Valid() && Enabled(View(), StartModule)
      modifies this
      ensures Valid() && View() == Step(old(View()), contextSize, StartModule)
    {
      StepKeeps(View(), contextSize, StartModule);
      if stopRequested {
        phase := Refused;
        stopped := true;
        if exited.Pending? {
          exited := Resolved;
        }
        return;
      }
      phase := Started;
    }

    method StartupFailed()
      requires Valid()
      modifies this
      ensures Valid() && View() == Step(old(View()), contextSize, StartupFails)
    {
      StepKeeps(View(), contextSize, StartupFails);
      FailAll();
    }

    /** The running generation is over: a full answer, or a partial one when stopping. */
    method EndGeneration()
      modifies this
      ensures View() == Ended(old(View()))
    {
      if activeGeneration.Some? {
        if stopRequested {
          Abort();
        } else {
          var done := activeGeneration.value;
          activeGeneration := None;
          cancelRequested := false;
          SettleResolve(done);
        }
      }
    }

    /** The Runtime wants the next prompt: the previous generation is over. */
    method OnPendingPrompt(cb: Callback)
      requires Valid() && Enabled(View(), PendingPrompt(cb))
      modifies this
      ensures Valid() && View() == Step(old(View()), contextSize, PendingPrompt(cb))
    {
      hide Inv, Ended;
      StepKeeps(View(), contextSize, PendingPrompt(cb));
      asked := asked + [cb];
      if ready.Pending? {
        ready := Resolved;
      }
      EndGeneration();
      if stopRequested {
        delivered := delivered + [Delivery(cb, [], true)];
        return;
      }
      promptWaiter := Some(cb);
    }

    method OnRuntimeExit()
      requires Valid() && Enabled(View(), OnExit)
      modifies this
      ensures Valid() && View() == Step(old(View()), contextSize, OnExit)
    {
      hide Inv;
      StepKeeps(View(), contextSize, OnExit);
      stopped := true;
      if stopRequested {
        Abort();
        if exited.Pending? {
          exited := Resolved;
        }
        return;
      }
      FailAll();
    }

    method OnRuntimeAbort()
      requires Valid() && Enabled(View(), OnAbort)
      modifies this
      ensures Valid() && View() == Step(old(View()), contextSize, OnAbort)
    {
      hide Inv;
      StepKeeps(View(), contextSize, OnAbort);
      FailAll();
    }

    /** `generate` up to the point where it waits for `ready`. */
    method Generate(id: CallId, prompt: Bytes)
      requires Valid() && Enabled(View(), GenerateBegins(id, prompt))
      modifies this
      ensures Valid() && View() == Step(old(View()), contextSize, GenerateBegins(id, prompt))
    {
      hide Inv;
      StepKeeps(View(), contextSize, GenerateBegins(id, prompt));
      if prompt == [] {
        SettleReject(id);
      } else if stopRequested || stopped {
        SettleReject(id);
      } else if |prompt| >= contextSize {
        SettleReject(id);
      } else {
        calls := calls[id := Awaiting(prompt)];
      }
    }

    /** `generate` from the point where `ready` has settled. */
    method GenerateAfterReady(id: CallId)
      requires Valid() && Enabled(View(), GenerateResumes(id))
      modifies this
      ensures Valid() && View() == Step(old(View()), contextSize, GenerateResumes(id))
    {
      hide Inv;
      StepKeeps(View(), contextSize, GenerateResumes(id));
      var encoded := calls[id].prompt;
      if ready.Rejected? {
        SettleReject(id);
        return;
      }
      if stopRequested || stopped {
        SettleReject(id);
        return;
      }
      if activeGeneration.Some? {
        SettleReject(id);
        return;
      }
      if promptWaiter.None? {
        SettleReject(id);
        return;
      }
      calls := calls[id := Running];
      activeGeneration := Some(id);
      cancelRequested := false;
      var ok := DeliverPrompt(encoded);
      // The prompt is always delivered: a callback was waiting a moment ago.
      assert ok;
    }

    method CancelGeneration()
      requires Valid()
      modifies this
      ensures Valid() && View() == Step(old(View()), contextSize, Cancel)
    {
      StepKeeps(View(), contextSize, Cancel);
      if activeGeneration.Some? {
        cancelRequested := true;
      }
    }

    /** `stop` up to the point where it waits for the Runtime to exit. */
    method StopRuntime()
      requires Valid()
      modifies this
      ensures Valid() && View() == Step(old(View()), contextSize, StopBegins)
    {
      hide Inv;
      StepKeeps(View(), contextSize, StopBegins);
      stopRequested := true;
      cancelRequested := true;
      if promptWaiter.Some? {
        var _ := DeliverPrompt([]);
      }
    }

    /** The rest of `stop`, after the Runtime has exited or the waits have timed out. */
    method StopFinish()
      requires Valid() && Enabled(View(), StopReturns)
      modifies this
      ensures Valid() && View() == Step(old(View()), contextSize, StopReturns)
      ensures forall id :: id in calls ==> !calls[id].Running?
    {
      StepKeeps(View(), contextSize, StopReturns);
      Abort();
      if ready.Pending? {
        ready := Rejected;
      }
      stopReturned := true;
    }
  }
}
