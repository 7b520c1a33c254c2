/**
  What reaches the Runtime: over every run, the texts its prompt callbacks get are the prompts of the
  calls that started, in their order, and a generation is told to cancel exactly when the caller asked.
 */
module LifecyclePrompts {
  import opened Arith
  import opened Option
  import opened Lifecycle

  /** The texts delivered that hold anything. */
  function Texts(delivered: seq<Delivery>): seq<Bytes> {
    if delivered == [] then []
    else
      var last := delivered[|delivered| - 1];
      Texts(delivered[..|delivered| - 1]) + if last.text == [] then [] else [last.text]
  }

  lemma OneMoreText(delivered: seq<Delivery>, d: Delivery)
    ensures Texts(delivered + [d]) == Texts(delivered) + if d.text == [] then [] else [d.text]
  {
  }

  /** The call a step starts, if any. */
  function Started(s: State, contextSize: nat, e: Event): seq<CallId>
    requires Enabled(s, e)
  {
    if e.GenerateResumes? && e.id in Step(s, contextSize, e).calls && Step(s, contextSize, e).calls[e.id].Running? then [e.id] else []
  }

  /** The calls a run starts, in order. */
  ghost function Starts(s: State, contextSize: nat, events: seq<Event>): seq<CallId>
    requires Run(s, contextSize, events)
    decreases |events|
  {
    if events == [] then []
    else Started(s, contextSize, events[0]) + Starts(Step(s, contextSize, events[0]), contextSize, events[1..])
  }

  /** What a step delivers: the empty text to a callback when stopping, or the prompt of the call it starts. */
  lemma StepDelivers(s: State, contextSize: nat, e: Event)
    requires Inv(s) && Enabled(s, e)
    ensures Step(s, contextSize, e).delivered == s.delivered +
              match e
              case PendingPrompt(cb) => if s.stopRequested then [Delivery(cb, [], true)] else []
              case StopBegins => if s.waiter.Some? then [Delivery(s.waiter.value, [], true)] else []
              case GenerateResumes(id) =>
                if s.ready.Resolved? && !s.stopRequested && !s.stopped && s.active.None? && s.waiter.Some?
                then [Delivery(s.waiter.value, s.calls[id].prompt, false)] else []
              case _ => []
  {
    hide PromptsOk, CallsOk, FlagsOk, AskPrompt;
    match e
    case PendingPrompt(cb) => AskFacts(s, cb);
    case _ =>
  }

  /** What was asked for, by call; what has been started; and that the texts are the prompts of what was started. */
  ghost predicate Told(s: State, contextSize: nat, asked: map<CallId, Bytes>, starts: seq<CallId>) {
    && asked.Keys == s.calls.Keys
    && (forall id :: id in s.calls && s.calls[id].Awaiting? ==> s.calls[id].prompt == asked[id] && 0 < |asked[id]| < contextSize)
    && Distinct(starts)
    && (forall k :: 0 <= k < |starts| ==>
          starts[k] in s.calls && !s.calls[starts[k]].Awaiting? && 0 < |asked[starts[k]]| < contextSize)
    && |Texts(s.delivered)| == |starts|
    && (forall k :: 0 <= k < |starts| ==> Texts(s.delivered)[k] == asked[starts[k]])
  }

  function Asking(asked: map<CallId, Bytes>, e: Event): map<CallId, Bytes> {
    if e.GenerateBegins? then asked[e.id := e.prompt] else asked
  }

  lemma StepTells(s: State, contextSize: nat, e: Event, asked: map<CallId, Bytes>, starts: seq<CallId>)
    requires Inv(s) && Enabled(s, e) && Told(s, contextSize, asked, starts)
    ensures Told(Step(s, contextSize, e), contextSize, Asking(asked, e), starts + Started(s, contextSize, e))
  {
    hide PromptsOk, FlagsOk, Step, Texts, Told;
    StepMoves(s, contextSize, e);
    StepDelivers(s, contextSize, e);
    var t := Step(s, contextSize, e);
    if Started(s, contextSize, e) == [] {
      assert starts + [] == starts;
      if t.delivered != s.delivered {
        OneMoreText(s.delivered, t.delivered[|s.delivered|]);
        assert Texts(s.delivered) + [] == Texts(s.delivered);
      }
      NothingTold(s, t, contextSize, e, asked, starts);
    } else {
      OneMoreText(s.delivered, t.delivered[|s.delivered|]);
      OneTold(s, t, contextSize, asked, starts, e.id);
    }
  }

  lemma NothingTold(s: State, t: State, contextSize: nat, e: Event, asked: map<CallId, Bytes>, starts: seq<CallId>)
    requires Told(s, contextSize, asked, starts) && Texts(t.delivered) == Texts(s.delivered)
    requires t.calls.Keys == s.calls.Keys + if e.GenerateBegins? then {e.id} else {}
    requires e.GenerateBegins? ==> e.id !in s.calls
    requires forall id :: id in s.calls && !s.calls[id].Awaiting? ==> !t.calls[id].Awaiting?
    requires forall id :: id in t.calls && t.calls[id].Awaiting? ==>
               if e.GenerateBegins? && e.id == id then t.calls[id].prompt == e.prompt && 0 < |e.prompt| < contextSize
               else t.calls[id] == s.calls[id]
    ensures Told(t, contextSize, Asking(asked, e), starts)
  {
    hide Texts;
  }

  lemma OneTold(s: State, t: State, contextSize: nat, asked: map<CallId, Bytes>, starts: seq<CallId>, id: CallId)
    requires Told(s, contextSize, asked, starts) && id in s.calls && s.calls[id].Awaiting?
    requires t.calls == s.calls[id := Running] && Texts(t.delivered) == Texts(s.delivered) + [s.calls[id].prompt]
    ensures Told(t, contextSize, asked, starts + [id])
  {
    hide Texts;
  }

  /** The prompts of the `GenerateBegins` events. */
  function Prompts(events: seq<Event>): map<CallId, Bytes> {
    if events == [] then map[] else Asking(Prompts(events[..|events| - 1]), events[|events| - 1])
  }

  lemma {:induction false} RunTells(s: State, contextSize: nat, seen: seq<Event>, events: seq<Event>, starts: seq<CallId>)
    requires Inv(s) && Run(s, contextSize, events) && Told(s, contextSize, Prompts(seen), starts)
    ensures Told(After(s, contextSize, events), contextSize, Prompts(seen + events), starts + Starts(s, contextSize, events))
    decreases |events|
  {
    hide Inv, Step, Enabled, Told, Started, Asking;
    if events == [] {
      assert seen + events == seen && starts + [] == starts;
    } else {
      var e := events[0];
      StepTells(s, contextSize, e, Prompts(seen), starts);
      StepKeeps(s, contextSize, e);
      assert (seen + [e])[..|seen|] == seen;
      RunTells(Step(s, contextSize, e), contextSize, seen + [e], events[1..], starts + Started(s, contextSize, e));
      assert seen + [e] + events[1..] == seen + events;
      assert starts + Started(s, contextSize, e) + Starts(Step(s, contextSize, e), contextSize, events[1..])
          == starts + (Started(s, contextSize, e) + Starts(Step(s, contextSize, e), contextSize, events[1..]));
    }
  }

  /** A call's prompt is the one of a `GenerateBegins` event with its id. */
  lemma {:induction false} PromptIsAsked(events: seq<Event>, id: CallId) returns (i: nat)
    requires id in Prompts(events)
    ensures i < |events| && events[i] == GenerateBegins(id, Prompts(events)[id])
  {
    var last := events[|events| - 1];
    if last.GenerateBegins? && last.id == id {
      i := |events| - 1;
    } else {
      i := PromptIsAsked(events[..|events| - 1], id);
    }
  }

  /** A call begins once only. */
  lemma {:induction false} BeginsOnce(s: State, contextSize: nat, events: seq<Event>, i: nat)
    requires Inv(s) && Run(s, contextSize, events) && i < |events| && events[i].GenerateBegins?
    ensures events[i].id !in s.calls
    ensures forall j :: i < j < |events| && events[j].GenerateBegins? ==> events[j].id != events[i].id
    decreases |events|
  {
    hide Inv, Step;
    var e := events[0];
    var t := Step(s, contextSize, e);
    StepKeeps(s, contextSize, e);
    CallsStay(s, contextSize, e);
    if i > 0 {
      BeginsOnce(t, contextSize, events[1..], i - 1);
      forall j | i < j < |events| && events[j].GenerateBegins?
        ensures events[j].id != events[i].id
      {
        assert events[1..][j - 1] == events[j];
      }
    } else {
      forall j | 0 < j < |events| && events[j].GenerateBegins?
        ensures events[j].id != e.id
      {
        BeginsOnce(t, contextSize, events[1..], j - 1);
      }
    }
  }

  lemma CallsStay(s: State, contextSize: nat, e: Event)
    requires Inv(s) && Enabled(s, e)
    ensures forall id :: id in s.calls ==> id in Step(s, contextSize, e).calls
    ensures e.GenerateBegins? ==> e.id in Step(s, contextSize, e).calls
  {
    hide PromptsOk, FlagsOk, Step;
    StepMoves(s, contextSize, e);
  }

  ghost predicate AskedAt(events: seq<Event>, i: nat, id: CallId, prompt: Bytes) {
    && i < |events| && events[i] == GenerateBegins(id, prompt)
    && (forall j :: 0 <= j < |events| && events[j].GenerateBegins? && events[j].id == id ==> j == i)
  }

  /**
    For every run: the texts the Runtime gets, other than the empty one, are as many as calls that
    started, and the k-th is, byte for byte, the prompt the k-th of them was called with, by the only
    call of that name. It holds something and is shorter than the context.
   */
  lemma PromptsReachTheRuntime(contextSize: nat, events: seq<Event>)
    requires Run(Fresh, contextSize, events)
    ensures var texts, starts := Texts(After(Fresh, contextSize, events).delivered), Starts(Fresh, contextSize, events);
            && |texts| == |starts| && Distinct(starts)
            && (forall k :: 0 <= k < |starts| ==>
                  0 < |texts[k]| < contextSize && exists i: nat :: AskedAt(events, i, starts[k], texts[k]))
  {
    hide Step, Enabled, Starts, Texts, Inv;
    FreshInv();
    FreshTells(contextSize);
    RunTells(Fresh, contextSize, [], events, []);
    assert [] + events == events;
    var s, starts := After(Fresh, contextSize, events), Starts(Fresh, contextSize, events);
    assert [] + starts == starts;
    forall k | 0 <= k < |starts|
      ensures exists i: nat :: AskedAt(events, i, starts[k], Texts(s.delivered)[k])
    {
      var i := PromptIsAsked(events, starts[k]);
      BeginsOnce(Fresh, contextSize, events, i);
      forall j | 0 <= j < |events| && events[j].GenerateBegins? && events[j].id == starts[k]
        ensures j == i
      {
        BeginsOnce(Fresh, contextSize, events, j);
      }
      assert AskedAt(events, i, starts[k], Texts(s.delivered)[k]);
    }
  }

  lemma FreshTells(contextSize: nat)
    ensures Told(Fresh, contextSize, Prompts([]), [])
  {
  }

  // ----- cancelling -----

  /** Since the call was resumed, the caller has cancelled. */
  ghost predicate CancelledSince(events: seq<Event>, id: CallId) {
    exists i, j :: 0 <= i < j < |events| && events[i] == GenerateResumes(id) && events[j] == Cancel
  }

  ghost predicate CancelOk(s: State, events: seq<Event>) {
    && (!s.stopRequested ==> (s.cancelRequested <==> s.active.Some? && CancelledSince(events, s.active.value)))
    && (s.active.Some? ==> GenerateResumes(s.active.value) in events)
    && (forall i :: 0 <= i < |events| && events[i].GenerateResumes? ==>
          events[i].id in s.calls && !s.calls[events[i].id].Awaiting?)
  }

  /** How a step moves the flag, the active call and the stop flag. */
  lemma StepFlagsMove(s: State, contextSize: nat, e: Event)
    requires Inv(s) && Enabled(s, e)
    ensures var t := Step(s, contextSize, e);
            && (t.stopRequested <==> s.stopRequested || e.StopBegins?)
            && match e
               case GenerateResumes(id) => if Started(s, contextSize, e) == [id] then t.active == Some(id) && !t.cancelRequested
                                           else t.active == s.active && t.cancelRequested == s.cancelRequested
               case Cancel => t.active == s.active && (t.cancelRequested <==> s.cancelRequested || s.active.Some?)
               case StopBegins => t.active == s.active && t.cancelRequested
               case StartModule => t.active == s.active && t.cancelRequested == s.cancelRequested
               case GenerateBegins(_, _) => t.active == s.active && t.cancelRequested == s.cancelRequested
               case _ => t.active.None? && (s.active.Some? ==> !t.cancelRequested) && (s.active.None? ==> t.cancelRequested == s.cancelRequested)
  {
    hide PromptsOk, Deliveries, Fail, Exit, StopDone, Begin, Resume, Stop, AskPrompt;
    match e
    case StartupFails => FailClears(s);
    case OnAbort => FailClears(s);
    case OnExit => ExitClears(s);
    case StopReturns => AbortClears(s);
    case PendingPrompt(cb) => AskClears(s, cb);
    case GenerateBegins(id, prompt) => BeginClears(s, contextSize, id, prompt);
    case GenerateResumes(id) => ResumeClears(s, id, s.calls[id].prompt);
    case StopBegins => StopClears(s);
    case _ =>
  }

  ghost predicate Cleared(s: State, t: State) {
    && t.active.None? && t.stopRequested == s.stopRequested
    && (s.active.Some? ==> !t.cancelRequested) && (s.active.None? ==> t.cancelRequested == s.cancelRequested)
  }

  lemma AbortClears(s: State)
    ensures Cleared(s, AbortGeneration(s)) && Cleared(s, StopDone(s))
  {
  }

  lemma FailClears(s: State)
    ensures Cleared(s, Fail(s))
  {
  }

  lemma ExitClears(s: State)
    ensures Cleared(s, Exit(s))
  {
    hide Fail, AbortGeneration;
    FailClears(s.(stopped := true));
    AbortClears(s.(stopped := true));
  }

  lemma AskClears(s: State, cb: Callback)
    ensures Cleared(s, AskPrompt(s, cb))
  {
  }

  lemma BeginClears(s: State, contextSize: nat, id: CallId, prompt: Bytes)
    ensures var t := Begin(s, contextSize, id, prompt);
            t.active == s.active && t.cancelRequested == s.cancelRequested && t.stopRequested == s.stopRequested
  {
  }

  lemma ResumeClears(s: State, id: CallId, prompt: Bytes)
    requires id in s.calls && s.calls[id].Awaiting? && s.active != Some(id)
    ensures var t := Resume(s, id, prompt);
            && t.stopRequested == s.stopRequested
            && (if id in t.calls && t.calls[id].Running? then t.active == Some(id) && !t.cancelRequested
                else t.active == s.active && t.cancelRequested == s.cancelRequested)
  {
  }

  lemma StopClears(s: State)
    ensures Stop(s).active == s.active && Stop(s).cancelRequested && Stop(s).stopRequested
  {
  }

  lemma StepCancels(s: State, contextSize: nat, e: Event, events: seq<Event>)
    requires Inv(s) && Enabled(s, e) && CancelOk(s, events)
    ensures CancelOk(Step(s, contextSize, e), events + [e])
  {
    hide PromptsOk, CallsOk, FlagsOk, Step;
    StepFlagsMove(s, contextSize, e);
    ResumedStays(s, contextSize, e);
    var t, all := Step(s, contextSize, e), events + [e];
    assert forall i :: 0 <= i < |events| ==> all[i] == events[i];
    assert all[|events|] == e;
    assert !s.stopRequested && s.active.None? ==> !s.cancelRequested;
    forall id: CallId
      ensures CancelledSince(all, id) <==> CancelledSince(events, id) || (e.Cancel? && GenerateResumes(id) in events)
    {
      OneMoreCancel(events, e, id);
    }
    if e.GenerateResumes? && t.active == Some(e.id) && s.calls[e.id].Awaiting? {
      assert !CancelledSince(events, e.id);
    }
  }

  lemma OneMoreCancel(events: seq<Event>, e: Event, id: CallId)
    ensures CancelledSince(events + [e], id) <==> CancelledSince(events, id) || (e.Cancel? && GenerateResumes(id) in events)
  {
    var all := events + [e];
    assert forall i :: 0 <= i < |events| ==> all[i] == events[i];
    if CancelledSince(all, id) {
      var i, j :| 0 <= i < j < |all| && all[i] == GenerateResumes(id) && all[j] == Cancel;
      assert events[i] == GenerateResumes(id);
    }
    if e.Cancel? && GenerateResumes(id) in events {
      var i :| 0 <= i < |events| && events[i] == GenerateResumes(id);
      assert all[i] == GenerateResumes(id) && all[|events|] == Cancel;
    }
  }

  lemma ResumedStays(s: State, contextSize: nat, e: Event)
    requires Inv(s) && Enabled(s, e)
    ensures var t := Step(s, contextSize, e);
            && (forall id :: id in s.calls && !s.calls[id].Awaiting? ==> id in t.calls && !t.calls[id].Awaiting?)
            && (e.GenerateResumes? ==> s.calls[e.id].Awaiting? && e.id in t.calls && !t.calls[e.id].Awaiting?)
  {
    hide PromptsOk, FlagsOk, Step;
    StepMoves(s, contextSize, e);
  }

  lemma {:induction false} RunCancels(s: State, contextSize: nat, seen: seq<Event>, events: seq<Event>)
    requires Inv(s) && Run(s, contextSize, events) && CancelOk(s, seen)
    ensures CancelOk(After(s, contextSize, events), seen + events)
    decreases |events|
  {
    hide Inv, Step, Enabled, CancelOk;
    if events == [] {
      assert seen + events == seen;
    } else {
      StepCancels(s, contextSize, events[0], seen);
      StepKeeps(s, contextSize, events[0]);
      RunCancels(Step(s, contextSize, events[0]), contextSize, seen + [events[0]], events[1..]);
      assert seen + [events[0]] + events[1..] == seen + events;
    }
  }

  /** While no stop is requested, the Runtime sees a cancel exactly when the caller has cancelled since the running call was resumed. */
  lemma CancelIsAsked(contextSize: nat, events: seq<Event>)
    requires Run(Fresh, contextSize, events)
    ensures var s := After(Fresh, contextSize, events);
            !s.stopRequested ==> (s.cancelRequested <==> s.active.Some? && CancelledSince(events, s.active.value))
  {
    hide Run, After, Inv;
    FreshInv();
    RunCancels(Fresh, contextSize, [], events);
    assert [] + events == events;
  }

  // ----- the two promises of the session -----

  /**
    `ready` resolves with the first prompt the Runtime asks for, and is rejected by what ends the session
    before that; `exited` resolves with an exit or a refused start under a stop, and is rejected by any
    other end. Once settled, neither changes. The module starts unless a stop came first, and the Runtime has
    stopped once it has exited or has been refused.
   */
  lemma PromisesTell(s: State, contextSize: nat, e: Event)
    requires Enabled(s, e)
    ensures var t := Step(s, contextSize, e);
            && t.ready == (if !s.ready.Pending? then s.ready
                           else if e.PendingPrompt? then Resolved
                           else if e.StartupFails? || e.OnAbort? || e.StopReturns? || (e.OnExit? && !s.stopRequested) then Rejected
                           else Pending)
            && t.exited == (if !s.exited.Pending? then s.exited
                            else if (e.OnExit? || e.StartModule?) && s.stopRequested then Resolved
                            else if e.StartupFails? || e.OnAbort? || e.OnExit? then Rejected
                            else Pending)
            && t.phase == (if !e.StartModule? then s.phase else if s.stopRequested then Refused else Phase.Started)
            && (t.stopped <==> s.stopped || e.OnExit? || (e.StartModule? && s.stopRequested))
            && (t.stopReturned <==> s.stopReturned || e.StopReturns?)
  {
    hide Fail, Exit, StopDone, Begin, Resume, Stop, AskPrompt;
    match e
    case StartupFails => FailTells(s);
    case OnAbort => FailTells(s);
    case OnExit => ExitTells(s);
    case StopReturns => StopDoneTells(s);
    case PendingPrompt(cb) => AskIsSilent(s, cb);
    case GenerateBegins(id, prompt) => BeginIsSilent(s, contextSize, id, prompt);
    case GenerateResumes(id) => ResumeIsSilent(s, id, s.calls[id].prompt);
    case StopBegins => StopIsSilent(s);
    case _ =>
  }

  ghost predicate SamePlace(s: State, t: State) { t.phase == s.phase && t.stopped == s.stopped && t.stopReturned == s.stopReturned }

  lemma FailTells(s: State)
    ensures Fail(s).ready == Settle(s.ready, false) && Fail(s).exited == Settle(s.exited, false) && SamePlace(s, Fail(s))
  {
  }

  lemma ExitTells(s: State)
    ensures Exit(s).ready == if s.stopRequested then s.ready else Settle(s.ready, false)
    ensures Exit(s).exited == Settle(s.exited, s.stopRequested) && SamePlace(s.(stopped := true), Exit(s))
  {
    hide Fail;
    FailTells(s.(stopped := true));
  }

  lemma StopDoneTells(s: State)
    ensures StopDone(s).ready == Settle(s.ready, false) && StopDone(s).exited == s.exited
    ensures SamePlace(s.(stopReturned := true), StopDone(s))
  {
  }

  lemma AskIsSilent(s: State, cb: Callback)
    ensures AskPrompt(s, cb).ready == Settle(s.ready, true) && AskPrompt(s, cb).exited == s.exited && SamePlace(s, AskPrompt(s, cb))
  {
  }

  lemma BeginIsSilent(s: State, contextSize: nat, id: CallId, prompt: Bytes)
    ensures Begin(s, contextSize, id, prompt).ready == s.ready && Begin(s, contextSize, id, prompt).exited == s.exited
    ensures SamePlace(s, Begin(s, contextSize, id, prompt))
  {
  }

  lemma ResumeIsSilent(s: State, id: CallId, prompt: Bytes)
    ensures Resume(s, id, prompt).ready == s.ready && Resume(s, id, prompt).exited == s.exited
    ensures SamePlace(s, Resume(s, id, prompt))
  {
  }

  lemma StopIsSilent(s: State)
    ensures Stop(s).ready == s.ready && Stop(s).exited == s.exited && SamePlace(s, Stop(s))
  {
  }
}
