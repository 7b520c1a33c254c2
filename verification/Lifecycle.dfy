/**
  The requester's life as a state machine: prompts asked for by the Runtime, generations started by
  the caller, cancelling, stopping and failing, in any order.

  A prompt callback and a `generate` call are tokens; a text is its encoded bytes.
 */
module Lifecycle {
  import opened Arith
  import opened Option

  type Bytes = seq<bv8>
  type Callback = nat
  type CallId = nat

  datatype Deferred = Pending | Resolved | Rejected

  /** Startup prepares the model, and then starts the module or refuses to. */
  datatype Phase = Preparing | Started | Refused

  /** A `generate` call waits until the Runtime is ready, then runs, then its promise is settled. */
  datatype Call = Awaiting(prompt: Bytes) | Running | Settled(ok: bool)

  /** A prompt callback called with a text, and whether a stop had been requested by then. */
  datatype Delivery = Delivery(cb: Callback, text: Bytes, stopping: bool)

  datatype State = State(
    phase: Phase, ready: Deferred, exited: Deferred, waiter: Option<Callback>, active: Option<CallId>,
    cancelRequested: bool, stopRequested: bool, stopped: bool, calls: map<CallId, Call>,
    asked: seq<Callback>, delivered: seq<Delivery>, settlements: seq<CallId>, stopReturned: bool)

  const Fresh: State :=
    State(Preparing, Pending, Pending, None, None, false, false, false, map[], [], [], [], false)

  function Settle(d: Deferred, ok: bool): Deferred { if d.Pending? then if ok then Resolved else Rejected else d }

  /** A settled promise keeps its outcome. */
  function SettleCall(s: State, id: CallId, ok: bool): State {
    if id in s.calls && s.calls[id].Settled? then s
    else s.(calls := s.calls[id := Settled(ok)], settlements := s.settlements + [id])
  }

  function AbortGeneration(s: State): State {
    if s.active.None? then s
    else SettleCall(s.(active := None, cancelRequested := false), s.active.value, false)
  }

  function Fail(s: State): State {
    var t := AbortGeneration(s.(ready := Settle(s.ready, false)));
    t.(exited := Settle(t.exited, false))
  }

  function Deliver(s: State, text: Bytes): State {
    if s.waiter.None? then s
    else s.(waiter := None, delivered := s.delivered + [Delivery(s.waiter.value, text, s.stopRequested)])
  }

  datatype Event =
    | StartModule
    | StartupFails
    | PendingPrompt(cb: Callback)
    | OnExit
    | OnAbort
    | GenerateBegins(id: CallId, prompt: Bytes)
    | GenerateResumes(id: CallId)
    | Cancel
    | StopBegins
    | StopReturns

  /** The running generation ends: with a full answer, or with a partial one when stopping. */
  function Ended(s: State): State {
    if s.active.None? then s
    else if s.stopRequested then AbortGeneration(s)
    else SettleCall(s.(active := None, cancelRequested := false), s.active.value, true)
  }

  function AskPrompt(s: State, cb: Callback): State {
    var r := s.(ready := Settle(s.ready, true), asked := s.asked + [cb]);
    var t := Ended(r);
    if t.stopRequested then t.(delivered := t.delivered + [Delivery(cb, [], true)])
    else t.(waiter := Some(cb))
  }

  function Exit(s: State): State {
    var t := s.(stopped := true);
    if t.stopRequested then
      var u := AbortGeneration(t);
      u.(exited := Settle(u.exited, true))
    else Fail(t)
  }

  /** Checks made at once; what passes them waits for `ready`. */
  function Begin(s: State, contextSize: nat, id: CallId, prompt: Bytes): State {
    if prompt == [] || s.stopRequested || s.stopped || |prompt| >= contextSize then SettleCall(s, id, false)
    else s.(calls := s.calls[id := Awaiting(prompt)])
  }

  /** Checks made again when `ready` has settled; what passes them delivers its prompt. */
  function Resume(s: State, id: CallId, prompt: Bytes): State {
    if s.ready.Rejected? || s.stopRequested || s.stopped || s.active.Some? || s.waiter.None? then SettleCall(s, id, false)
    else Deliver(s.(calls := s.calls[id := Running], active := Some(id), cancelRequested := false), prompt)
  }

  function Stop(s: State): State { Deliver(s.(stopRequested := true, cancelRequested := true), []) }

  function StopDone(s: State): State {
    var t := AbortGeneration(s);
    t.(ready := Settle(t.ready, false), stopReturned := true)
  }

  /** The hooks exist once the module has started; a call resumes once `ready` has settled. */
  predicate Enabled(s: State, e: Event) {
    match e
    case StartModule => s.phase.Preparing?
    case PendingPrompt(_) => s.phase.Started?
    case OnExit => s.phase.Started?
    case OnAbort => s.phase.Started?
    case GenerateBegins(id, _) => id !in s.calls
    case GenerateResumes(id) => id in s.calls && s.calls[id].Awaiting? && !s.ready.Pending?
    case StopReturns => s.stopRequested
    case _ => true
  }

  function Step(s: State, contextSize: nat, e: Event): State
    requires Enabled(s, e)
  {
    match e
    case StartModule =>
      if s.stopRequested then s.(phase := Refused, stopped := true, exited := Settle(s.exited, true))
      else s.(phase := Started)
    case StartupFails => Fail(s)
    case PendingPrompt(cb) => AskPrompt(s, cb)
    case OnExit => Exit(s)
    case OnAbort => Fail(s)
    case GenerateBegins(id, prompt) => Begin(s, contextSize, id, prompt)
    case GenerateResumes(id) => Resume(s, id, s.calls[id].prompt)
    case Cancel => if s.active.Some? then s.(cancelRequested := true) else s
    case StopBegins => Stop(s)
    case StopReturns => StopDone(s)
  }

  // ----- what every run keeps -----

  function Asks(asked: seq<Callback>, cb: Callback): nat { multiset(asked)[cb] }

  /** How often a prompt callback was called. */
  function Deliveries(delivered: seq<Delivery>, cb: Callback): nat {
    if delivered == [] then 0
    else Deliveries(delivered[..|delivered| - 1], cb) + if delivered[|delivered| - 1].cb == cb then 1 else 0
  }

  lemma DeliverOne(delivered: seq<Delivery>, d: Delivery, cb: Callback)
    ensures Deliveries(delivered + [d], cb) == Deliveries(delivered, cb) + if d.cb == cb then 1 else 0
  {
  }

  /** Callbacks: none is called more often than it was handed over, counting the one still waiting. */
  ghost predicate PromptsOk(s: State) {
    && (forall cb: Callback :: Deliveries(s.delivered, cb) + (if s.waiter == Some(cb) then 1 else 0) <= Asks(s.asked, cb))
    && (forall i :: 0 <= i < |s.delivered| ==> (s.delivered[i].text == [] <==> s.delivered[i].stopping))
    && (s.stopRequested ==> s.waiter.None?)
  }

  /** Calls: the running one is the active one, and each is settled once. */
  ghost predicate CallsOk(s: State) {
    && (forall id :: id in s.calls && s.calls[id].Running? <==> s.active == Some(id))
    && (forall id :: id in s.calls && s.calls[id].Awaiting? ==> s.calls[id].prompt != [])
    && (forall id :: id in s.settlements <==> id in s.calls && s.calls[id].Settled?)
    && Distinct(s.settlements)
  }

  ghost predicate FlagsOk(s: State) {
    && (s.active.Some? ==> s.waiter.None? && !s.stopped && !s.stopReturned)
    && (s.cancelRequested ==> s.active.Some? || s.stopRequested)
    && (s.stopRequested && s.active.Some? ==> s.cancelRequested)
    && (s.exited.Resolved? ==> s.stopRequested)
    && (s.stopReturned ==> s.stopRequested && !s.ready.Pending?)
    && (!s.phase.Started? ==> s.active.None? && s.waiter.None? && !s.ready.Resolved?)
  }

  ghost predicate Inv(s: State) { PromptsOk(s) && CallsOk(s) && FlagsOk(s) }

  // Calls.

  lemma SettleKeeps(s: State, id: CallId, ok: bool)
    requires CallsOk(s) && (id in s.calls ==> s.calls[id].Awaiting?)
    ensures CallsOk(SettleCall(s, id, ok))
  {
  }

  lemma FinishKeeps(s: State, ok: bool)
    requires CallsOk(s) && s.active.Some?
    ensures var t := SettleCall(s.(active := None, cancelRequested := false), s.active.value, ok);
            CallsOk(t) && t.calls == s.calls[s.active.value := Settled(ok)] && t.settlements == s.settlements + [s.active.value]
  {
  }

  lemma SameCalls(s: State, t: State)
    requires CallsOk(s) && t.calls == s.calls && t.active == s.active && t.settlements == s.settlements
    ensures CallsOk(t)
  {
  }

  lemma AbortKeeps(s: State)
    requires CallsOk(s)
    ensures CallsOk(AbortGeneration(s))
  {
  }

  lemma AskCalls(s: State, cb: Callback)
    requires CallsOk(s)
    ensures CallsOk(AskPrompt(s, cb))
  {
    hide CallsOk;
    var r := s.(ready := Settle(s.ready, true), asked := s.asked + [cb]);
    SameCalls(s, r);
    AbortKeeps(r);
    if r.active.Some? {
      FinishKeeps(r, true);
    }
    SameCalls(Ended(r), AskPrompt(s, cb));
  }

  lemma FailCalls(s: State)
    requires CallsOk(s)
    ensures CallsOk(Fail(s))
  {
    hide CallsOk;
    var r := s.(ready := Settle(s.ready, false));
    SameCalls(s, r);
    AbortKeeps(r);
    SameCalls(AbortGeneration(r), Fail(s));
  }

  lemma ExitCalls(s: State)
    requires CallsOk(s)
    ensures CallsOk(Exit(s))
  {
    hide CallsOk;
    var t := s.(stopped := true);
    SameCalls(s, t);
    FailCalls(t);
    AbortKeeps(t);
    SameCalls(AbortGeneration(t), AbortGeneration(t).(exited := Settle(AbortGeneration(t).exited, true)));
  }

  lemma BeginCalls(s: State, contextSize: nat, id: CallId, prompt: Bytes)
    requires CallsOk(s) && id !in s.calls
    ensures CallsOk(Begin(s, contextSize, id, prompt))
  {
    SettleKeeps(s, id, false);
  }

  lemma ResumeCalls(s: State, id: CallId, prompt: Bytes)
    requires CallsOk(s) && id in s.calls && s.calls[id].Awaiting?
    ensures CallsOk(Resume(s, id, prompt))
  {
    SettleKeeps(s, id, false);
  }

  lemma StepCalls(s: State, contextSize: nat, e: Event)
    requires CallsOk(s) && Enabled(s, e)
    ensures CallsOk(Step(s, contextSize, e))
  {
    hide CallsOk, AskPrompt, Exit, Fail, Begin, Resume, AbortGeneration;
    match e
    case PendingPrompt(cb) => AskCalls(s, cb);
    case OnExit => ExitCalls(s);
    case OnAbort => FailCalls(s);
    case StartupFails => FailCalls(s);
    case GenerateBegins(id, prompt) => BeginCalls(s, contextSize, id, prompt);
    case GenerateResumes(id) => ResumeCalls(s, id, s.calls[id].prompt);
    case StopReturns =>
      AbortKeeps(s);
      SameCalls(AbortGeneration(s), StopDone(s));
    case _ => SameCalls(s, Step(s, contextSize, e));
  }

  // Prompt callbacks.

  /** A step that delivers nothing new and asks for nothing. */
  lemma SamePrompts(s: State, t: State)
    requires PromptsOk(s) && t.delivered == s.delivered && t.asked == s.asked
    requires t.waiter == s.waiter && t.stopRequested == s.stopRequested
    ensures PromptsOk(t)
  {
  }

  lemma DeliverPrompts(s: State, text: Bytes)
    requires PromptsOk(s.(stopRequested := false)) && (text == [] <==> s.stopRequested)
    requires s.stopRequested || s.waiter.Some?
    ensures PromptsOk(Deliver(s, text))
  {
  }

  lemma AskOne(asked: seq<Callback>, cb: Callback, x: Callback)
    ensures Asks(asked + [cb], x) == Asks(asked, x) + if x == cb then 1 else 0
  {
  }

  /** What asking does to the callbacks: the new one waits, or is answered at once when stopping. */
  lemma AskFacts(s: State, cb: Callback)
    ensures var t := AskPrompt(s, cb);
            && t.asked == s.asked + [cb] && t.stopRequested == s.stopRequested
            && t.waiter == (if s.stopRequested then s.waiter else Some(cb))
            && t.delivered == if s.stopRequested then s.delivered + [Delivery(cb, [], true)] else s.delivered
  {
  }

  lemma AskPrompts(s: State, cb: Callback)
    requires PromptsOk(s)
    ensures PromptsOk(AskPrompt(s, cb))
  {
    hide Deliveries, Asks, AskPrompt;
    AskFacts(s, cb);
    forall x: Callback
      ensures Asks(s.asked + [cb], x) == Asks(s.asked, x) + if x == cb then 1 else 0
      ensures Deliveries(s.delivered + [Delivery(cb, [], true)], x) == Deliveries(s.delivered, x) + if x == cb then 1 else 0
    {
      AskOne(s.asked, cb, x);
      DeliverOne(s.delivered, Delivery(cb, [], true), x);
    }
  }

  lemma StepPrompts(s: State, contextSize: nat, e: Event)
    requires PromptsOk(s) && CallsOk(s) && Enabled(s, e)
    ensures PromptsOk(Step(s, contextSize, e))
  {
    hide PromptsOk, AskPrompt, Deliveries, Deliver;
    match e
    case PendingPrompt(cb) => AskPrompts(s, cb);
    case StopBegins => StopPrompts(s);
    case GenerateResumes(id) =>
      ResumePrompts(s, id, s.calls[id].prompt);
    case _ => SamePrompts(s, Step(s, contextSize, e));
  }

  lemma StopPrompts(s: State)
    requires PromptsOk(s)
    ensures PromptsOk(Stop(s))
  {
  }

  lemma ResumePrompts(s: State, id: CallId, prompt: Bytes)
    requires PromptsOk(s) && prompt != []
    ensures PromptsOk(Resume(s, id, prompt))
  {
    hide Deliveries, Deliver;
    if !(s.ready.Rejected? || s.stopRequested || s.stopped || s.active.Some? || s.waiter.None?) {
      DeliverPrompts(s.(calls := s.calls[id := Running], active := Some(id), cancelRequested := false), prompt);
    }
  }

  // Flags.

  lemma FailFlags(s: State)
    requires FlagsOk(s)
    ensures FlagsOk(Fail(s)) && Fail(s).active.None? && FlagsOk(Fail(s).(stopped := true))
  {
  }

  lemma AbortFlags(s: State)
    requires FlagsOk(s)
    ensures var t := AbortGeneration(s); FlagsOk(t) && t.active.None? && t.waiter == s.waiter && t.stopRequested == s.stopRequested
  {
  }

  lemma ExitFlags(s: State)
    requires FlagsOk(s) && s.phase.Started?
    ensures FlagsOk(Exit(s))
  {
  }

  lemma AskFlags(s: State, cb: Callback)
    requires FlagsOk(s) && s.phase.Started?
    ensures FlagsOk(AskPrompt(s, cb))
  {
  }

  lemma ResumeFlags(s: State, id: CallId, prompt: Bytes)
    requires FlagsOk(s) && PromptsOk(s) && !s.ready.Pending?
    ensures FlagsOk(Resume(s, id, prompt))
  {
  }

  lemma StepFlags(s: State, contextSize: nat, e: Event)
    requires FlagsOk(s) && PromptsOk(s) && Enabled(s, e)
    ensures FlagsOk(Step(s, contextSize, e))
  {
    hide Deliveries, Exit, Fail, AskPrompt, Resume, AbortGeneration;
    match e
    case PendingPrompt(cb) => AskFlags(s, cb);
    case OnExit => ExitFlags(s);
    case OnAbort => FailFlags(s);
    case StartupFails => FailFlags(s);
    case GenerateResumes(id) => ResumeFlags(s, id, s.calls[id].prompt);
    case StopReturns => AbortFlags(s);
    case _ =>
  }

  lemma StepKeeps(s: State, contextSize: nat, e: Event)
    requires Inv(s) && Enabled(s, e)
    ensures Inv(Step(s, contextSize, e))
  {
    hide CallsOk, PromptsOk, FlagsOk, Step;
    StepCalls(s, contextSize, e);
    StepPrompts(s, contextSize, e);
    StepFlags(s, contextSize, e);
  }

  /** The calls after a step: the running one settled, or the one the step is about moved on. */
  function Moved(s: State, contextSize: nat, e: Event): map<CallId, Call>
    requires Enabled(s, e)
  {
    match e
    case PendingPrompt(_) => if s.active.None? then s.calls else s.calls[s.active.value := Settled(!s.stopRequested)]
    case OnExit | OnAbort | StartupFails | StopReturns =>
      if s.active.None? then s.calls else s.calls[s.active.value := Settled(false)]
    case GenerateBegins(id, prompt) =>
      s.calls[id := if prompt == [] || s.stopRequested || s.stopped || |prompt| >= contextSize then Settled(false) else Awaiting(prompt)]
    case GenerateResumes(id) =>
      s.calls[id := if s.ready.Resolved? && !s.stopRequested && !s.stopped && s.active.None? && s.waiter.Some? then Running else Settled(false)]
    case _ => s.calls
  }

  lemma AbortMoves(s: State)
    requires CallsOk(s)
    ensures AbortGeneration(s).calls == if s.active.None? then s.calls else s.calls[s.active.value := Settled(false)]
  {
  }

  lemma AskMoves(s: State, cb: Callback)
    requires CallsOk(s)
    ensures AskPrompt(s, cb).calls == if s.active.None? then s.calls else s.calls[s.active.value := Settled(!s.stopRequested)]
  {
  }

  lemma FailMoves(s: State)
    requires CallsOk(s)
    ensures Fail(s).calls == if s.active.None? then s.calls else s.calls[s.active.value := Settled(false)]
  {
  }

  lemma StepMoves(s: State, contextSize: nat, e: Event)
    requires CallsOk(s) && Enabled(s, e)
    ensures Step(s, contextSize, e).calls == Moved(s, contextSize, e)
  {
    hide CallsOk, AskPrompt, AbortGeneration, Fail;
    match e
    case PendingPrompt(cb) => AskMoves(s, cb);
    case OnExit =>
      SameCalls(s, s.(stopped := true));
      FailMoves(s.(stopped := true));
      AbortMoves(s.(stopped := true));
    case OnAbort => FailMoves(s);
    case StartupFails => FailMoves(s);
    case StopReturns => AbortMoves(s);
    case _ =>
  }

  /**
    One step settles at most the promise of the running generation, or the one of the call it is about.
    It resolves only the running generation, only when the Runtime asks for a prompt, and only while
    no stop has been requested.
   */
  lemma OnlyPromptsResolve(s: State, contextSize: nat, e: Event, id: CallId)
    requires Inv(s) && Enabled(s, e)
    requires var t := Step(s, contextSize, e);
             id in t.calls && t.calls[id].Settled? && !(id in s.calls && s.calls[id].Settled?)
    ensures Step(s, contextSize, e).calls[id].ok ==> e.PendingPrompt? && !s.stopRequested && s.active == Some(id)
    ensures e.PendingPrompt? && !s.stopRequested ==> Step(s, contextSize, e).calls[id].ok
    ensures s.active == Some(id) || (e.GenerateBegins? && e.id == id) || (e.GenerateResumes? && e.id == id)
  {
    hide Deliveries, PromptsOk, Step, FlagsOk;
    StepMoves(s, contextSize, e);
  }

  // ----- runs -----

  ghost predicate Run(s: State, contextSize: nat, events: seq<Event>)
    decreases |events|
  {
    events == [] || (Enabled(s, events[0]) && Run(Step(s, contextSize, events[0]), contextSize, events[1..]))
  }

  ghost function After(s: State, contextSize: nat, events: seq<Event>): State
    requires Run(s, contextSize, events)
    decreases |events|
  {
    if events == [] then s else After(Step(s, contextSize, events[0]), contextSize, events[1..])
  }

  lemma {:induction false} RunKeeps(s: State, contextSize: nat, events: seq<Event>)
    requires Inv(s) && Run(s, contextSize, events)
    ensures Inv(After(s, contextSize, events))
    decreases |events|
  {
    hide Inv, Step, Enabled;
    if events != [] {
      StepKeeps(s, contextSize, events[0]);
      RunKeeps(Step(s, contextSize, events[0]), contextSize, events[1..]);
    }
  }

  /** No promise changes its outcome once settled. */
  lemma {:induction false} SettledStays(s: State, contextSize: nat, events: seq<Event>, id: CallId)
    requires Inv(s) && Run(s, contextSize, events) && id in s.calls && s.calls[id].Settled?
    ensures var t := After(s, contextSize, events); id in t.calls && t.calls[id] == s.calls[id]
    decreases |events|
  {
    hide Inv, Step, Enabled;
    if events != [] {
      StepKeeps(s, contextSize, events[0]);
      StepSettledStays(s, contextSize, events[0], id);
      SettledStays(Step(s, contextSize, events[0]), contextSize, events[1..], id);
    }
  }

  lemma StepSettledStays(s: State, contextSize: nat, e: Event, id: CallId)
    requires Inv(s) && Enabled(s, e) && id in s.calls && s.calls[id].Settled?
    ensures var t := Step(s, contextSize, e); id in t.calls && t.calls[id] == s.calls[id]
  {
    hide Deliveries, PromptsOk, Step, FlagsOk;
    StepMoves(s, contextSize, e);
  }

  /**
    After every run: at most one generation is running, and it is the active one; each promise was
    settled at most once; a cancel flag means a running generation or a stop, and a generation still
    running under a stop is told to cancel; the exit counts as clean only after a stop; and once `stop`
    has returned, or the Runtime has exited, no generation is unsettled.
   */
  lemma GenerationsAreSettled(contextSize: nat, events: seq<Event>)
    requires Run(Fresh, contextSize, events)
    ensures var s := After(Fresh, contextSize, events);
            && (forall id, id' :: id in s.calls && id' in s.calls && s.calls[id].Running? && s.calls[id'].Running? ==>
                  id == id' && s.active == Some(id))
            && Distinct(s.settlements) && (forall id :: id in s.settlements <==> id in s.calls && s.calls[id].Settled?)
            && (s.cancelRequested ==> s.active.Some? || s.stopRequested)
            && (s.stopRequested && s.active.Some? ==> s.cancelRequested)
            && (s.exited.Resolved? ==> s.stopRequested)
            && (s.stopReturned || s.stopped ==> forall id :: id in s.calls ==> !s.calls[id].Running?)
            && (s.stopReturned ==> !s.ready.Pending?)
  {
    hide PromptsOk;
    assert Inv(Fresh) by { FreshInv(); }
    RunKeeps(Fresh, contextSize, events);
  }

  lemma FreshInv()
    ensures Inv(Fresh)
  {
  }

  /**
    After every run: a prompt callback was called at most as often as it was handed over, with the
    empty text exactly when a stop had been requested, and none is left waiting after that.
   */
  lemma PromptsAreAnsweredOnce(contextSize: nat, events: seq<Event>, cb: Callback)
    requires Run(Fresh, contextSize, events)
    ensures var s := After(Fresh, contextSize, events);
            && Deliveries(s.delivered, cb) <= Asks(s.asked, cb)
            && (forall i :: 0 <= i < |s.delivered| ==> (s.delivered[i].text == [] <==> s.delivered[i].stopping))
            && (s.stopRequested ==> s.waiter.None?)
  {
    hide CallsOk, FlagsOk, Deliveries;
    FreshInv();
    RunKeeps(Fresh, contextSize, events);
  }
}
