/**
  The dual-channel event loop of an agent (`src/actor/agent.rs`) as a state machine. A label is one
  atomic step, either of the environment (sending, closing a channel, the message handler clearing its
  own flag) or of the agent between two awaits.
 */
module AgentLoop {
  import opened Wrappers

  datatype Signal =
    | Interrupt(reason: string, severity: nat)
    | Halt
    | RollbackNotification(tokensErased: nat, rollbackPosition: nat)
    | TaskComplete(result: string)
    | Heartbeat
    | Shutdown

  datatype Payload = SignalPayload(signal: Signal) | Content(text: string)

  datatype Envelope = Envelope(id: nat, payload: Payload)

  predicate IsControlSignal(e: Envelope) {
    e.payload.SignalPayload? && (e.payload.signal.Interrupt? || e.payload.signal.Halt? || e.payload.signal.Shutdown?)
  }

  predicate IsHaltOrShutdown(e: Envelope) {
    e.payload.SignalPayload? && (e.payload.signal.Halt? || e.payload.signal.Shutdown?)
  }

  predicate IsInterrupt(e: Envelope) {
    e.payload.SignalPayload? && e.payload.signal.Interrupt?
  }

  /** A bounded channel: its queue and whether a sender is left. */
  datatype Channel = Channel(queue: seq<Envelope>, open: bool) {
    /** `recv` would return at once, with a message or with `None`. */
    predicate Ready() {
      queue != [] || !open
    }

    function Pop(): Channel
      requires queue != []
    {
      this.(queue := queue[1..])
    }
  }

  const SIGNAL_CAPACITY := 16

  /**
    Where the agent stands. `Processing` holds the message in flight and the units of work its handler
    still has to do; `Responding` is about to send the response, `Draining` handles deferred signals.
   */
  datatype Phase =
    | Idle
    | Processing(message: Envelope, work: nat)
    | Responding(response: Option<Envelope>)
    | Draining
    | Exited

  /**
    What the agent's hooks did: how often the shutdown hook ran, which interrupts were handled, which
    envelopes the hooks returned, and what went out.
   */
  datatype Hooks = Hooks(shutdowns: nat, interrupted: seq<Envelope>, answered: seq<Envelope>, outbox: seq<Envelope>)

  /**
    The loop's variables, then the history that the properties are about: what was sent, what reached
    the signal handler from the signal channel, what was taken from the inbox, which messages were
    started and finished, what the hooks did.
   */
  datatype State = State(
    inbox: Channel, signals: Channel, inboxCapacity: nat,
    phase: Phase, deferred: seq<Envelope>, shouldShutdown: bool, hasToken: bool, cancel: bool,
    sentSignals: seq<Envelope>, sentMessages: seq<Envelope>,
    handled: seq<Envelope>, taken: seq<Envelope>,
    started: seq<Envelope>, finished: seq<Envelope>,
    hooks: Hooks, sendFailed: bool)

  function Spawn(inboxCapacity: nat, hasToken: bool): State {
    State(Channel([], true), Channel([], true), inboxCapacity,
          Idle, [], false, hasToken, false,
          [], [], [], [], [], [], Hooks(0, [], [], []), false)
  }

  datatype Label =
    | SendSignal(e: Envelope) | SendMessage(e: Envelope) | CloseSignals | CloseInbox | ClearCancel
    | IdleSignal(reply: Option<Envelope>)
    | IdleMessage(work: nat, reply: Option<Envelope>)
    | TakeSignal
    | Poll(response: Option<Envelope>)
    | Respond(delivered: bool)
    | Drain(reply: Option<Envelope>)

  predicate IsAgentStep(l: Label) {
    l.IdleSignal? || l.IdleMessage? || l.TakeSignal? || l.Poll? || l.Respond? || l.Drain?
  }

  function Sequence(e: Option<Envelope>): seq<Envelope> {
    if e.Some? then [e.value] else []
  }

  /** The effect of `handle_control_signal`; `reply` is what `handle_interrupt` returned and got delivered. */
  function HandleControl(h: Hooks, e: Envelope, reply: Option<Envelope>): Hooks {
    if IsHaltOrShutdown(e) then h.(shutdowns := h.shutdowns + 1)
    else if IsInterrupt(e) then
      h.(interrupted := h.interrupted + [e],
         answered := h.answered + Sequence(reply), outbox := h.outbox + Sequence(reply))
    else h
  }

  /** Phase 1, signal branch. */
  function OnIdleSignal(s: State, reply: Option<Envelope>): State
    requires s.signals.Ready()
  {
    if s.signals.queue == [] then s.(phase := Exited)
    else
      var e := s.signals.queue[0];
      var t := s.(hooks := HandleControl(s.hooks, e, reply), signals := s.signals.Pop(), handled := s.handled + [e]);
      if IsHaltOrShutdown(e) then t.(phase := Exited) else t
  }

  /** Phase 1, inbox branch: control signals may arrive here as well. */
  function OnIdleMessage(s: State, work: nat, reply: Option<Envelope>): State
    requires s.inbox.Ready()
  {
    if s.inbox.queue == [] then s.(phase := Exited)
    else
      var e := s.inbox.queue[0];
      var t := s.(inbox := s.inbox.Pop(), taken := s.taken + [e]);
      if IsControlSignal(e) then
        var u := t.(hooks := HandleControl(t.hooks, e, reply));
        if IsHaltOrShutdown(e) then u.(phase := Exited) else u
      else
        t.(phase := Processing(e, work), started := t.started + [e], deferred := [], shouldShutdown := false)
  }

  /** Phase 2, signal branch: set the cancel token, note a halt, defer the signal. */
  function OnTakeSignal(s: State): State
    requires s.signals.Ready()
  {
    if s.signals.queue == [] then s.(shouldShutdown := true)
    else
      var e := s.signals.queue[0];
      s.(signals := s.signals.Pop(),
         cancel := s.cancel || (s.hasToken && IsControlSignal(e)),
         shouldShutdown := s.shouldShutdown || IsHaltOrShutdown(e),
         deferred := s.deferred + [e])
  }

  /** Phase 2, handler branch: one unit of work, or the result. */
  function OnPoll(s: State, response: Option<Envelope>): State
    requires s.phase.Processing?
  {
    if s.phase.work > 0 then s.(phase := Processing(s.phase.message, s.phase.work - 1))
    else
      s.(phase := Responding(response), finished := s.finished + [s.phase.message],
         hooks := s.hooks.(answered := s.hooks.answered + Sequence(response)))
  }

  function OnRespond(s: State, delivered: bool): State
    requires s.phase.Responding?
  {
    if s.phase.response.None? then s.(phase := Draining)
    else if delivered then 
      s.(phase := Draining, hooks := s.hooks.(outbox := s.hooks.outbox + [s.phase.response.value]))
    else s.(phase := Exited, sendFailed := true)
  }

  function OnDrain(s: State, reply: Option<Envelope>): State {
    if s.deferred == [] then s.(phase := if s.shouldShutdown then Exited else Idle)
    else
      var e := s.deferred[0];
      var t := s.(hooks := HandleControl(s.hooks, e, reply), deferred := s.deferred[1..], handled := s.handled + [e]);
      if IsHaltOrShutdown(e) then t.(shouldShutdown := true) else t
  }

  /** When a step can happen. Both `select!`s are biased: the second branch only runs while `recv` waits. */
  predicate Enabled(s: State, l: Label) {
    match l
    case SendSignal(_) => s.signals.open && !s.phase.Exited? && |s.signals.queue| < SIGNAL_CAPACITY
    case SendMessage(_) => s.inbox.open && !s.phase.Exited? && |s.inbox.queue| < s.inboxCapacity
    case CloseSignals => s.signals.open
    case CloseInbox => s.inbox.open
    case ClearCancel => s.phase.Processing?
    case IdleSignal(_) => s.phase.Idle? && s.signals.Ready()
    case IdleMessage(_, _) => s.phase.Idle? && !s.signals.Ready() && s.inbox.Ready()
    case TakeSignal => s.phase.Processing? && s.signals.Ready()
    case Poll(_) => s.phase.Processing? && !s.signals.Ready()
    case Respond(_) => s.phase.Responding?
    case Drain(_) => s.phase.Draining?
  }

  function Next(s: State, l: Label): State
    requires Enabled(s, l)
  {
    match l
    case SendSignal(e) =>
      s.(signals := s.signals.(queue := s.signals.queue + [e]), sentSignals := s.sentSignals + [e])
    case SendMessage(e) =>
      s.(inbox := s.inbox.(queue := s.inbox.queue + [e]), sentMessages := s.sentMessages + [e])
    case CloseSignals => s.(signals := s.signals.(open := false))
    case CloseInbox => s.(inbox := s.inbox.(open := false))
    case ClearCancel => s.(cancel := false)
    case IdleSignal(reply) => OnIdleSignal(s, reply)
    case IdleMessage(work, reply) => OnIdleMessage(s, work, reply)
    case TakeSignal => OnTakeSignal(s)
    case Poll(response) => OnPoll(s, response)
    case Respond(delivered) => OnRespond(s, delivered)
    case Drain(reply) => OnDrain(s, reply)
  }

  /** The state after a sequence of steps, if all are enabled. */
  function After(s: State, labels: seq<Label>): Option<State> {
    if labels == [] then Some(s)
    else
      var t :- After(s, labels[..|labels| - 1]);
      var l := labels[|labels| - 1];
      if Enabled(t, l) then Some(Next(t, l)) else None
  }

  /** The control signals are exactly the envelopes that the signal handler acts on. */
  lemma ControlSignalsAct(h: Hooks, e: Envelope)
    ensures HandleControl(h, e, None) == h <==> !IsControlSignal(e)
  {
    assert |h.interrupted + [e]| == |h.interrupted| + 1;
  }

  // ------------------------------------------------------------------
  // The invariant of every reachable state
  // ------------------------------------------------------------------

  function NonControl(s: seq<Envelope>): seq<Envelope> {
    if s == [] then []
    else NonControl(s[..|s| - 1]) + if IsControlSignal(s[|s| - 1]) then [] else [s[|s| - 1]]
  }

  /** How many signals stop the agent. */
  function Stops(s: seq<Envelope>): nat {
    if s == [] then 0 else Stops(s[..|s| - 1]) + if IsHaltOrShutdown(s[|s| - 1]) then 1 else 0
  }

  function Interrupts(s: seq<Envelope>): seq<Envelope> {
    if s == [] then [] else Interrupts(s[..|s| - 1]) + if IsInterrupt(s[|s| - 1]) then [s[|s| - 1]] else []
  }

  lemma FilterPush(s: seq<Envelope>, e: Envelope)
    ensures NonControl(s + [e]) == NonControl(s) + if IsControlSignal(e) then [] else [e]
    ensures Stops(s + [e]) == Stops(s) + if IsHaltOrShutdown(e) then 1 else 0
    ensures Interrupts(s + [e]) == Interrupts(s) + if IsInterrupt(e) then [e] else []
  {
    assert (s + [e])[..|s|] == s;
  }

  lemma {:induction false} FilterConcat(a: seq<Envelope>, b: seq<Envelope>)
    ensures NonControl(a + b) == NonControl(a) + NonControl(b)
    ensures Stops(a + b) == Stops(a) + Stops(b)
  {
    if b == [] {
      assert a + b == a;
    } else {
      var c, e := b[..|b| - 1], b[|b| - 1];
      FilterConcat(a, c);
      assert a + b == a + c + [e] && b == c + [e];
      FilterPush(a + c, e);
      FilterPush(c, e);
    }
  }

  /** First in, first out: nothing sent is lost, duplicated or reordered while the loop runs. */
  ghost predicate Fifo(s: State) {
    && s.sentSignals == s.handled + s.deferred + s.signals.queue
    && s.sentMessages == s.taken + s.inbox.queue
  }

  /** Handlers run one at a time, in inbox order, never on a control signal, and are never dropped. */
  ghost predicate OneAtATime(s: State) {
    && s.started == NonControl(s.taken)
    && s.started == s.finished + if s.phase.Processing? then [s.phase.message] else []
  }

  /** What is deferred, and what will follow from it. */
  ghost predicate Pending(s: State) {
    && (s.phase.Idle? ==> s.deferred == [])
    && (Stops(s.deferred) > 0 ==> s.shouldShutdown)
    && (s.phase.Exited? && !s.sendFailed ==> s.deferred == [])
    && (s.sendFailed ==> s.phase.Exited?)
  }

  /** The hooks ran once for each signal that calls for them. */
  ghost predicate HookCounted(s: State) {
    && s.hooks.shutdowns == Stops(s.handled) + Stops(s.taken)
    && multiset(s.hooks.interrupted) == multiset(Interrupts(s.handled)) + multiset(Interrupts(s.taken))
  }

  /** What the hooks returned went out, in order, but for a response still to be sent or lost on the way. */
  ghost predicate Delivered(s: State) {
    && (s.phase.Responding? ==> s.hooks.answered == s.hooks.outbox + Sequence(s.phase.response))
    && (s.sendFailed ==> s.hooks.outbox < s.hooks.answered && |s.hooks.answered| == |s.hooks.outbox| + 1)
    && (!s.phase.Responding? && !s.sendFailed ==> s.hooks.answered == s.hooks.outbox)
  }

  /**
    Once the shutdown hook has run, only deferred signals are left to handle. A stop is noted only for a
    reason, and the agent exits only for a reason: a stop, a closed channel, a response it could not send.
   */
  ghost predicate Settled(s: State) {
    && (s.hooks.shutdowns > 0 && !s.phase.Exited? ==> s.phase.Draining? && s.shouldShutdown)
    && (s.phase.Idle? ==> !s.shouldShutdown)
    && (s.shouldShutdown ==> Stops(s.deferred) > 0 || s.hooks.shutdowns > 0 || !s.signals.open)
    && (s.phase.Exited? ==> s.sendFailed || s.hooks.shutdowns > 0 || !s.signals.open || !s.inbox.open)
  }

  ghost predicate Ordered(s: State) {
    Fifo(s) && OneAtATime(s) && Pending(s)
  }

  ghost predicate Inv(s: State) {
    Ordered(s) && HookCounted(s) && Delivered(s) && Settled(s)
  }

  lemma NextKeepsInv(s: State, l: Label)
    requires Inv(s) && Enabled(s, l)
    ensures Inv(Next(s, l))
  {
    hide Inv, OnIdleSignal, OnIdleMessage, OnTakeSignal, OnDrain, OnPoll, OnRespond;
    match l
    case SendSignal(e) => SendKeepsInv(s, e);
    case SendMessage(e) => SendKeepsInv(s, e);
    case CloseSignals => QuietKeepsInv(s, Next(s, l));
    case CloseInbox => QuietKeepsInv(s, Next(s, l));
    case ClearCancel => QuietKeepsInv(s, Next(s, l));
    case IdleSignal(reply) => IdleSignalKeepsInv(s, reply);
    case IdleMessage(work, reply) => IdleMessageKeepsInv(s, work, reply);
    case TakeSignal => TakeSignalKeepsInv(s);
    case Poll(response) => PollKeepsInv(s, response);
    case Respond(delivered) => RespondKeepsInv(s, delivered);
    case Drain(reply) => DrainKeepsInv(s, reply);
  }

  lemma SendKeepsInv(s: State, e: Envelope)
    requires Inv(s)
    ensures Enabled(s, SendSignal(e)) ==> Inv(Next(s, SendSignal(e)))
    ensures Enabled(s, SendMessage(e)) ==> Inv(Next(s, SendMessage(e)))
  {
    hide NonControl, Stops, Interrupts;
    assert s.handled + s.deferred + (s.signals.queue + [e]) == s.handled + s.deferred + s.signals.queue + [e];
    assert s.taken + (s.inbox.queue + [e]) == s.taken + s.inbox.queue + [e];
  }

  lemma QuietKeepsInv(s: State, t: State)
    requires Inv(s)
    requires t == s.(signals := t.signals, inbox := t.inbox, cancel := t.cancel)
    requires t.signals.queue == s.signals.queue && t.inbox.queue == s.inbox.queue
    requires (t.signals.open ==> s.signals.open) && (t.inbox.open ==> s.inbox.open)
    ensures Inv(t)
  {
    hide NonControl, Stops, Interrupts;
  }

  lemma PollKeepsInv(s: State, response: Option<Envelope>)
    requires Inv(s) && s.phase.Processing?
    ensures Inv(OnPoll(s, response))
  {
    hide NonControl, Stops, Interrupts;
  }

  lemma RespondKeepsInv(s: State, delivered: bool)
    requires Inv(s) && s.phase.Responding?
    ensures Inv(OnRespond(s, delivered))
  {
    hide NonControl, Stops, Interrupts;
  }

  /** Handling a signal, from whichever queue, runs the hook it calls for. */
  lemma HandlingKeepsHooks(s: State, e: Envelope, reply: Option<Envelope>, t: State)
    requires HookCounted(s) && s.hooks.answered == s.hooks.outbox
    requires t.hooks == HandleControl(s.hooks, e, reply)
    requires || (t.handled == s.handled + [e] && t.taken == s.taken)
             || (t.handled == s.handled && t.taken == s.taken + [e])
    ensures HookCounted(t) && t.hooks.answered == t.hooks.outbox
    ensures t.hooks.shutdowns == s.hooks.shutdowns + if IsHaltOrShutdown(e) then 1 else 0
  {
    hide Stops, Interrupts, NonControl;
    FilterPush(s.handled, e);
    FilterPush(s.taken, e);
  }

  lemma IdleSignalKeepsOrder(s: State, reply: Option<Envelope>)
    requires Ordered(s) && s.phase.Idle? && s.signals.Ready()
    ensures Ordered(OnIdleSignal(s, reply))
  {
    hide NonControl, Stops, HandleControl, IsHaltOrShutdown;
    if s.signals.queue != [] {
      var e := s.signals.queue[0];
      assert s.handled + [e] + [] + s.signals.queue[1..] == s.handled + [] + s.signals.queue;
    }
  }

  lemma IdleSignalKeepsInv(s: State, reply: Option<Envelope>)
    requires Inv(s) && s.phase.Idle? && s.signals.Ready()
    ensures Inv(OnIdleSignal(s, reply))
  {
    hide HookCounted, HandleControl, Fifo, OneAtATime, IsHaltOrShutdown, Stops;
    IdleSignalKeepsOrder(s, reply);
    var t := OnIdleSignal(s, reply);
    if s.signals.queue != [] {
      HandlingKeepsHooks(s, s.signals.queue[0], reply, t);
    } else {
      SameHooks(s, t);
    }
  }

  lemma SameHooks(s: State, t: State)
    requires HookCounted(s) && t.hooks.shutdowns == s.hooks.shutdowns && t.hooks.interrupted == s.hooks.interrupted
    requires t.handled == s.handled
    requires t.taken == s.taken || exists e :: !IsControlSignal(e) && t.taken == s.taken + [e]
    ensures HookCounted(t)
  {
    hide Stops, Interrupts, NonControl;
    if e :| !IsControlSignal(e) && t.taken == s.taken + [e] {
      FilterPush(s.taken, e);
    }
  }

  lemma IdleMessageKeepsOrder(s: State, work: nat, reply: Option<Envelope>)
    requires Ordered(s) && s.phase.Idle? && s.inbox.Ready()
    ensures Ordered(OnIdleMessage(s, work, reply))
  {
    hide NonControl, Stops, HandleControl, IsControlSignal, IsHaltOrShutdown;
    StopsNone();
    if s.inbox.queue != [] {
      var e := s.inbox.queue[0];
      FilterPush(s.taken, e);
      assert s.taken + [e] + s.inbox.queue[1..] == s.taken + s.inbox.queue;
    }
  }

  lemma IdleMessageKeepsInv(s: State, work: nat, reply: Option<Envelope>)
    requires Inv(s) && s.phase.Idle? && s.inbox.Ready()
    ensures Inv(OnIdleMessage(s, work, reply))
  {
    hide HookCounted, HandleControl, Fifo, OneAtATime, IsHaltOrShutdown, IsControlSignal, Stops;
    IdleMessageKeepsOrder(s, work, reply);
    var t := OnIdleMessage(s, work, reply);
    if s.inbox.queue != [] && IsControlSignal(s.inbox.queue[0]) {
      var e := s.inbox.queue[0];
      HandlingKeepsHooks(s, e, reply, t);
    } else {
      SameHooks(s, t);
    }
  }

  lemma TakeSignalKeepsInv(s: State)
    requires Inv(s) && s.phase.Processing? && s.signals.Ready()
    ensures Inv(OnTakeSignal(s))
  {
    hide NonControl, Stops, Interrupts, IsControlSignal, IsHaltOrShutdown;
    if s.signals.queue != [] {
      var e := s.signals.queue[0];
      FilterPush(s.deferred, e);
      assert s.handled + (s.deferred + [e]) + s.signals.queue[1..] == s.handled + s.deferred + s.signals.queue;
    }
  }

  lemma DrainKeepsOrder(s: State, reply: Option<Envelope>)
    requires Ordered(s) && s.phase.Draining?
    ensures Ordered(OnDrain(s, reply))
  {
    hide NonControl, Stops, HandleControl, IsHaltOrShutdown;
    if s.deferred != [] {
      var e, rest := s.deferred[0], s.deferred[1..];
      StopsHead(e, rest);
      assert s.deferred == [e] + rest;
      assert s.handled + [e] + rest + s.signals.queue == s.handled + ([e] + rest) + s.signals.queue;
    } else {
      StopsNone();
    }
  }

  lemma DrainKeepsInv(s: State, reply: Option<Envelope>)
    requires Inv(s) && s.phase.Draining?
    ensures Inv(OnDrain(s, reply))
  {
    hide HookCounted, HandleControl, Fifo, OneAtATime, IsHaltOrShutdown, Stops;
    DrainKeepsOrder(s, reply);
    var t := OnDrain(s, reply);
    if s.deferred != [] {
      var e, rest := s.deferred[0], s.deferred[1..];
      HandlingKeepsHooks(s, e, reply, t);
      StopsHead(e, rest);
      assert s.deferred == [e] + rest;
    } else {
      StopsNone();
      SameHooks(s, t);
    }
  }

  lemma StopsHead(e: Envelope, rest: seq<Envelope>)
    ensures Stops([e] + rest) == Stops(rest) + if IsHaltOrShutdown(e) then 1 else 0
  {
    FilterConcat([e], rest);
    FilterPush([], e);
    assert [] + [e] == [e];
  }

  lemma StopsNone()
    ensures Stops([]) == 0
  {
  }

  /** Every state of every run satisfies the invariant. */
  lemma {:induction false} Reachable(inboxCapacity: nat, hasToken: bool, labels: seq<Label>)
    ensures var s := After(Spawn(inboxCapacity, hasToken), labels);
            s.Some? ==> Inv(s.value)
  {
    hide Inv, Next, Enabled;
    if labels == [] {
      SpawnHasInv(inboxCapacity, hasToken);
    } else {
      var n := |labels| - 1;
      Reachable(inboxCapacity, hasToken, labels[..n]);
      var s := After(Spawn(inboxCapacity, hasToken), labels[..n]);
      if s.Some? && Enabled(s.value, labels[n]) {
        NextKeepsInv(s.value, labels[n]);
      }
    }
  }

  lemma SpawnHasInv(inboxCapacity: nat, hasToken: bool)
    ensures Inv(Spawn(inboxCapacity, hasToken))
  {
  }

  /**
    First in, first out, one at a time: in every reachable state the signals sent are those handled,
    deferred and queued, in order; the messages started are the first non-control messages sent, in
    order, at most one of them unfinished; and no control signal ever reaches the message handler.
   */
  lemma MessagesInOrder(inboxCapacity: nat, hasToken: bool, labels: seq<Label>)
    ensures var r := After(Spawn(inboxCapacity, hasToken), labels);
            r.Some? ==>
              var s := r.value;
              && s.sentSignals == s.handled + s.deferred + s.signals.queue
              && s.started <= NonControl(s.sentMessages)
              && s.finished <= s.started && |s.started| <= |s.finished| + 1
              && (forall i :: 0 <= i < |s.started| ==> !IsControlSignal(s.started[i]))
              && s.hooks.shutdowns == Stops(s.handled) + Stops(s.taken)
  {
    Reachable(inboxCapacity, hasToken, labels);
    var r := After(Spawn(inboxCapacity, hasToken), labels);
    if r.Some? {
      FilterConcat(r.value.taken, r.value.inbox.queue);
      NonControlIsClean(r.value.taken);
    }
  }

  lemma {:induction false} NonControlIsClean(s: seq<Envelope>)
    ensures forall i :: 0 <= i < |NonControl(s)| ==> !IsControlSignal(NonControl(s)[i])
  {
    if s != [] {
      NonControlIsClean(s[..|s| - 1]);
    }
  }

  // ------------------------------------------------------------------
  // Halting
  // ------------------------------------------------------------------

  /** A stop was noted during the current task. */
  predicate Stopping(s: State) {
    s.shouldShutdown && (s.phase.Processing? || s.phase.Responding? || s.phase.Draining?)
  }

  /** Once stopping, the agent can only finish, drain and exit. */
  ghost predicate NoNewWork(s: State, t: State) {
    && t.started == s.started && t.taken == s.taken
    && (Stopping(t) || t.phase.Exited?)
  }

  lemma StoppingNext(s: State, l: Label)
    requires Stopping(s) || s.phase.Exited?
    requires Enabled(s, l)
    ensures NoNewWork(s, Next(s, l))
  {
    hide HandleControl, IsControlSignal;
  }

  /** Signals are handled in the draining phase only, which a response that could not be sent skips. */
  ghost predicate Undrained(s: State, t: State) {
    t.phase.Processing? || t.phase.Responding? || t.sendFailed ==>
      t.handled == s.handled && t.hooks.shutdowns == s.hooks.shutdowns && s.deferred <= t.deferred
  }

  lemma UndrainedNext(s: State, t: State, l: Label)
    requires Undrained(s, t) && (Stopping(t) || t.phase.Exited?) && (t.sendFailed ==> t.phase.Exited?)
    requires Enabled(t, l)
    ensures Undrained(s, Next(t, l))
  {
    hide HandleControl, IsControlSignal, IsHaltOrShutdown, OnIdleSignal, OnIdleMessage;
  }

  /**
    After a halt or shutdown is taken mid-task, no further message is started, whatever happens. When
    the agent has exited, every deferred signal was handled, so the shutdown hook ran for each halt; but
    if it exited because the response could not be sent, none was, and the hook did not run.
   */
  lemma {:induction false} HaltStartsNothing(s: State, labels: seq<Label>)
    requires Inv(s) && Stopping(s)
    ensures var r := After(s, labels);
            r.Some? ==>
              && Inv(r.value) && NoNewWork(s, r.value)
              && (r.value.phase.Exited? && !r.value.sendFailed ==>
                    && r.value.sentSignals == r.value.handled + r.value.signals.queue
                    && s.handled + s.deferred <= r.value.handled
                    && r.value.hooks.shutdowns >= s.hooks.shutdowns + Stops(s.deferred))
              && (r.value.phase.Exited? && r.value.sendFailed ==>
                    && r.value.handled == s.handled && r.value.hooks.shutdowns == s.hooks.shutdowns
                    && s.deferred <= r.value.deferred)
  {
    hide Next, Enabled;
    HaltPrefix(s, labels);
    var r := After(s, labels);
    if r.Some? && r.value.phase.Exited? && !r.value.sendFailed {
      var t := r.value;
      assert t.handled + [] == t.handled;
      var more := t.handled[|s.handled + s.deferred|..];
      assert t.handled == s.handled + s.deferred + more;
      FilterConcat(s.handled + s.deferred, more);
      FilterConcat(s.handled, s.deferred);
    }
  }

  lemma SendFailedExits(s: State)
    requires Inv(s)
    ensures s.sendFailed ==> s.phase.Exited?
    ensures Undrained(s, s)
  {
  }

  /** What has been taken from the signal channel stays in place: handled, then deferred. */
  lemma {:induction false} HaltPrefix(s: State, labels: seq<Label>)
    requires Inv(s) && Stopping(s)
    ensures var r := After(s, labels);
            r.Some? ==> Inv(r.value) && NoNewWork(s, r.value)
                        && s.handled + s.deferred <= r.value.handled + r.value.deferred
                        && Undrained(s, r.value)
  {
    hide Inv, Next, Enabled, Undrained;
    SendFailedExits(s);
    if labels != [] {
      var n := |labels| - 1;
      HaltPrefix(s, labels[..n]);
      var t := After(s, labels[..n]);
      if t.Some? && Enabled(t.value, labels[n]) {
        NextKeepsInv(t.value, labels[n]);
        StoppingNext(t.value, labels[n]);
        TakenStays(t.value, labels[n]);
        SendFailedExits(t.value);
        UndrainedNext(s, t.value, labels[n]);
      }
    }
  }

  lemma TakenStays(s: State, l: Label)
    requires Stopping(s) || s.phase.Exited?
    requires Enabled(s, l)
    ensures s.handled + s.deferred <= Next(s, l).handled + Next(s, l).deferred
  {
    hide HandleControl, IsControlSignal, IsHaltOrShutdown;
    var t := Next(s, l);
    if l.Drain? && s.deferred != [] {
      assert t.handled + t.deferred == s.handled + s.deferred;
    } else if l.TakeSignal? && s.signals.queue != [] {
      assert t.handled + t.deferred == s.handled + s.deferred + [s.signals.queue[0]];
    }
  }

  // ------------------------------------------------------------------
  // The cancel token
  // ------------------------------------------------------------------

  /** The run stays within one `Processing` phase. */
  ghost predicate StaysProcessing(s: State, labels: seq<Label>) {
    forall n: nat :: n <= |labels| ==> After(s, labels[..n]).Some? && After(s, labels[..n]).value.phase.Processing?
  }

  lemma ProcessingPrefix(s: State, labels: seq<Label>)
    requires StaysProcessing(s, labels) && labels != []
    ensures StaysProcessing(s, labels[..|labels| - 1])
    ensures var n := |labels| - 1;
            && labels[..|labels|] == labels && After(s, labels).Some? && After(s, labels).value.phase.Processing?
            && After(s, labels[..n]).Some? && After(s, labels[..n]).value.phase.Processing?
            && Enabled(After(s, labels[..n]).value, labels[n])
            && Next(After(s, labels[..n]).value, labels[n]) == After(s, labels).value
  {
    hide Next, Enabled;
    var n := |labels| - 1;
    assert labels[..|labels|] == labels;
    forall m: nat | m <= n
      ensures After(s, labels[..n][..m]).Some? && After(s, labels[..n][..m]).value.phase.Processing?
    {
      assert labels[..n][..m] == labels[..m];
    }
  }

  /** How many steps were taken up to and including the last clearing of the flag. */
  function LastClear(labels: seq<Label>): (k: nat)
    ensures k <= |labels|
  {
    if labels == [] then 0
    else if labels[|labels| - 1].ClearCancel? then |labels|
    else LastClear(labels[..|labels| - 1])
  }

  predicate HasControl(signals: seq<Envelope>) {
    exists i :: 0 <= i < |signals| && IsControlSignal(signals[i])
  }

  lemma HasControlPush(signals: seq<Envelope>, e: Envelope)
    ensures HasControl(signals + [e]) <==> HasControl(signals) || IsControlSignal(e)
  {
    assert forall i :: 0 <= i < |signals| ==> (signals + [e])[i] == signals[i];
    assert (signals + [e])[|signals|] == e;
  }

  /** One step within a processing phase. */
  lemma CancelStep(s: State, l: Label, since: nat)
    requires s.phase.Processing? && Enabled(s, l) && Next(s, l).phase.Processing?
    requires since <= |s.deferred|
    ensures var t := Next(s, l);
            && t.hasToken == s.hasToken
            && s.deferred <= t.deferred
            && (l.ClearCancel? ==> !t.cancel && t.deferred == s.deferred)
            && (!l.ClearCancel? ==>
                  (t.cancel <==> s.cancel || (s.hasToken && HasControl(t.deferred[|s.deferred|..]))))
            && (HasControl(t.deferred[since..])
                <==> HasControl(s.deferred[since..]) || HasControl(t.deferred[|s.deferred|..]))
  {
    hide OnIdleSignal, OnIdleMessage, OnDrain, OnRespond, HandleControl, IsControlSignal, IsHaltOrShutdown, HasControl;
    var t := Next(s, l);
    HasNone([]);
    if l.TakeSignal? && s.signals.queue != [] {
      var e := s.signals.queue[0];
      assert t.deferred[|s.deferred|..] == [] + [e] && t.deferred[since..] == s.deferred[since..] + [e];
      HasControlPush([], e);
      HasControlPush(s.deferred[since..], e);
    } else {
      assert t.deferred == s.deferred && t.deferred[|s.deferred|..] == [];
    }
  }

  lemma HasNone(signals: seq<Envelope>)
    requires signals == []
    ensures !HasControl(signals)
  {
  }

  /**
    The cancel flag over a whole processing phase: it is set if and only if there is a token and a
    control signal was deferred since the handler last cleared the flag, or it was set when the run began
    and was never cleared. The signals deferred since then are the tail of the deferred ones.
   */
  lemma {:induction false} CancelledIff(s: State, labels: seq<Label>)
    requires StaysProcessing(s, labels)
    ensures After(s, labels).Some? && After(s, labels[..LastClear(labels)]).Some?
    ensures var t, cleared := After(s, labels).value, After(s, labels[..LastClear(labels)]).value;
            && t.hasToken == s.hasToken && cleared.deferred <= t.deferred
            && (t.cancel <==>
                  || (s.cancel && LastClear(labels) == 0)
                  || (s.hasToken && HasControl(t.deferred[|cleared.deferred|..])))
  {
    hide Next, Enabled, HasControl;
    assert labels[..|labels|] == labels && After(s, labels[..0]) == Some(s);
    if labels == [] {
      HasNone(s.deferred[|s.deferred|..]);
    } else {
      var n := |labels| - 1;
      ProcessingPrefix(s, labels);
      CancelledIff(s, labels[..n]);
      var before, t := After(s, labels[..n]).value, After(s, labels).value;
      var k := LastClear(labels[..n]);
      assert labels[..n][..k] == labels[..k];
      CancelStep(before, labels[n], |After(s, labels[..k]).value.deferred|);
      if labels[n].ClearCancel? {
        HasNone(t.deferred[|t.deferred|..]);
      }
    }
  }

  // ------------------------------------------------------------------
  // Progress
  // ------------------------------------------------------------------

  function Sends(labels: seq<Label>): nat {
    if labels == [] then 0 else Sends(labels[..|labels| - 1]) + if labels[|labels| - 1].SendSignal? then 1 else 0
  }

  function AgentSteps(labels: seq<Label>): nat {
    if labels == [] then 0 else AgentSteps(labels[..|labels| - 1]) + if IsAgentStep(labels[|labels| - 1]) then 1 else 0
  }

  /**
    With the signal sender alive, processing is finite: however signals and handler interleave, the
    agent takes at most one step per unit of work left and per signal queued or sent meanwhile.
   */
  lemma {:induction false} ProcessingEnds(s: State, labels: seq<Label>)
    requires s.phase.Processing? && StaysProcessing(s, labels)
    requires forall i :: 0 <= i < |labels| ==> !labels[i].CloseSignals?
    requires s.signals.open
    ensures var t := After(s, labels);
            && t.Some? && t.value.phase.Processing? && t.value.signals.open
            && AgentSteps(labels) + t.value.phase.work + |t.value.signals.queue|
               == s.phase.work + |s.signals.queue| + Sends(labels)
  {
    hide Next, Enabled;
    assert labels[..|labels|] == labels;
    if labels != [] {
      var n := |labels| - 1;
      ProcessingPrefix(s, labels);
      ProcessingEnds(s, labels[..n]);
      ProcessingStep(After(s, labels[..n]).value, labels[n]);
    }
  }

  lemma ProcessingStep(s: State, l: Label)
    requires s.phase.Processing? && s.signals.open && Enabled(s, l)
    requires Next(s, l).phase.Processing? && !l.CloseSignals?
    ensures var t := Next(s, l);
            && t.signals.open
            && (if IsAgentStep(l) then 1 else 0) + t.phase.work + |t.signals.queue|
               == s.phase.work + |s.signals.queue| + (if l.SendSignal? then 1 else 0)
  {
    hide HandleControl, IsControlSignal, IsHaltOrShutdown, OnIdleSignal, OnIdleMessage, OnDrain;
  }

  /** The steps that a stopping agent still has to take, when no more signals are sent. */
  function Ahead(s: State): nat {
    match s.phase
    case Processing(_, work) => work + 2 * |s.signals.queue| + |s.deferred| + 3
    case Responding(_) => |s.deferred| + 2
    case Draining => |s.deferred| + 1
    case _ => 0
  }

  lemma ProcessingAdvances(s: State, response: Option<Envelope>)
    requires s.phase.Processing? && s.signals.open
    ensures s.signals.Ready() ==>
              OnTakeSignal(s).signals.open && Ahead(OnTakeSignal(s)) + 1 <= Ahead(s)
    ensures !s.signals.Ready() ==>
              OnPoll(s, response).signals.open && Ahead(OnPoll(s, response)) + 1 <= Ahead(s)
  {
    hide IsControlSignal, IsHaltOrShutdown;
  }

  lemma FinishAdvances(s: State, delivered: bool, reply: Option<Envelope>)
    requires Stopping(s) && s.signals.open
    ensures s.phase.Responding? ==>
              OnRespond(s, delivered).signals.open && Ahead(OnRespond(s, delivered)) + 1 <= Ahead(s)
    ensures s.phase.Draining? ==>
              OnDrain(s, reply).signals.open && Ahead(OnDrain(s, reply)) + 1 <= Ahead(s)
  {
    hide HandleControl, IsHaltOrShutdown;
  }

  lemma StoppingAdvances(s: State, l: Label)
    requires Stopping(s) || s.phase.Exited?
    requires Enabled(s, l) && !l.CloseSignals? && s.signals.open
    ensures var t := Next(s, l);
            && t.signals.open
            && (if IsAgentStep(l) then 1 else 0) + Ahead(t) <= Ahead(s) + if l.SendSignal? then 2 else 0
  {
    hide OnTakeSignal, OnPoll, OnRespond, OnDrain, OnIdleSignal, OnIdleMessage;
    match l
    case TakeSignal => ProcessingAdvances(s, None);
    case Poll(response) => ProcessingAdvances(s, response);
    case Respond(delivered) => FinishAdvances(s, delivered, None);
    case Drain(reply) => FinishAdvances(s, true, reply);
    case _ =>
  }

  /** A stopping agent is never stuck while the signal sender is alive. */
  lemma StoppingCanStep(s: State) returns (l: Label)
    requires Stopping(s)
    ensures IsAgentStep(l) && Enabled(s, l)
  {
    l := match s.phase
         case Processing(_, _) => if s.signals.Ready() then TakeSignal else Poll(None)
         case Responding(_) => Respond(true)
         case _ => Drain(None);
  }

  lemma {:induction false} StoppingCounts(s: State, labels: seq<Label>)
    requires Stopping(s) && s.signals.open
    requires forall i :: 0 <= i < |labels| ==> !labels[i].CloseSignals?
    ensures var t := After(s, labels);
            t.Some? ==>
              && (Stopping(t.value) || t.value.phase.Exited?) && t.value.signals.open
              && AgentSteps(labels) + Ahead(t.value) <= Ahead(s) + 2 * Sends(labels)
  {
    hide Next, Enabled, Ahead, NoNewWork;
    if labels != [] {
      var n := |labels| - 1;
      StoppingCounts(s, labels[..n]);
      var t := After(s, labels[..n]);
      if t.Some? && Enabled(t.value, labels[n]) {
        StoppingAdvances(t.value, labels[n]);
        StaysStopping(t.value, labels[n]);
      }
    }
  }

  lemma StaysStopping(s: State, l: Label)
    requires Stopping(s) || s.phase.Exited?
    requires Enabled(s, l)
    ensures Stopping(Next(s, l)) || Next(s, l).phase.Exited?
  {
    hide Next, Enabled, Stopping;
    StoppingNext(s, l);
  }

  function WorkLeft(s: State): nat {
    if s.phase.Processing? then s.phase.work else 0
  }

  /**
    A halt ends the agent. Once stopping, with the signal sender alive, the agent takes at most one step
    per unit of work left, two per signal queued or sent meanwhile, one per signal already deferred, and
    three more; and until it has exited it can always take another step.
   */
  lemma HaltEndsTheAgent(s: State, labels: seq<Label>)
    requires Stopping(s) && s.signals.open
    requires forall i :: 0 <= i < |labels| ==> !labels[i].CloseSignals?
    ensures var t := After(s, labels);
            t.Some? ==>
              && AgentSteps(labels) <= WorkLeft(s) + 2 * (|s.signals.queue| + Sends(labels)) + |s.deferred| + 3
              && (t.value.phase.Exited? <==> !exists l :: IsAgentStep(l) && Enabled(t.value, l))
  {
    hide Next;
    StoppingCounts(s, labels);
    var t := After(s, labels);
    if t.Some? && !t.value.phase.Exited? {
      var l := StoppingCanStep(t.value);
    }
  }

  /**
    Once the shutdown hook has run, no message is started or taken any more, in any run from any reachable
    state: the agent has exited, or is handling the rest of its deferred signals before it does.
   */
  lemma {:induction false} NoMessageAfterShutdown(s: State, labels: seq<Label>)
    requires Inv(s) && s.hooks.shutdowns > 0
    ensures var t := After(s, labels);
            t.Some? ==>
              && t.value.started == s.started && t.value.taken == s.taken
              && (t.value.phase.Exited? || (t.value.phase.Draining? && t.value.shouldShutdown))
  {
    hide Inv, Next, Enabled;
    SettledAfterShutdown(s);
    if labels != [] {
      var n := |labels| - 1;
      NoMessageAfterShutdown(s, labels[..n]);
      var t := After(s, labels[..n]);
      if t.Some? && Enabled(t.value, labels[n]) {
        StoppingNext(t.value, labels[n]);
        DrainingNext(t.value, labels[n]);
      }
    }
  }

  lemma SettledAfterShutdown(s: State)
    requires Inv(s) && s.hooks.shutdowns > 0
    ensures s.phase.Exited? || (s.phase.Draining? && s.shouldShutdown)
  {
  }

  lemma DrainingNext(s: State, l: Label)
    requires s.phase.Exited? || (s.phase.Draining? && s.shouldShutdown)
    requires Enabled(s, l)
    ensures Next(s, l).phase.Exited? || (Next(s, l).phase.Draining? && Next(s, l).shouldShutdown)
  {
    hide HandleControl, IsHaltOrShutdown, OnTakeSignal, OnPoll, OnRespond, OnIdleSignal, OnIdleMessage;
  }

  /**
    Why the shutdown hook ran and why the agent exited, in every reachable state: the hook runs once per
    stop handled and then only deferred signals are left; the agent exits only after a stop, a closed
    channel or a response it could not send; and what went out is what the hooks returned, in order.
   */
  lemma ExitsForAReason(inboxCapacity: nat, hasToken: bool, labels: seq<Label>)
    ensures var r := After(Spawn(inboxCapacity, hasToken), labels);
            r.Some? ==>
              var s := r.value;
              && s.hooks.shutdowns == Stops(s.handled) + Stops(s.taken)
              && (s.hooks.shutdowns > 0 && !s.phase.Exited? ==> s.phase.Draining? && s.shouldShutdown)
              && (s.phase.Exited? ==> s.sendFailed || s.hooks.shutdowns > 0 || !s.signals.open || !s.inbox.open)
              && multiset(s.hooks.interrupted) == multiset(Interrupts(s.handled)) + multiset(Interrupts(s.taken))
              && s.hooks.outbox <= s.hooks.answered
              && (s.hooks.answered != s.hooks.outbox && !s.sendFailed ==> s.phase.Responding?)
  {
    hide After, NonControl, Stops, Interrupts;
    Reachable(inboxCapacity, hasToken, labels);
  }

  // ------------------------------------------------------------------
  // Closed channels while idle
  // ------------------------------------------------------------------

  /** The agent is idle, or has exited, and no message can reach it any more. */
  predicate CutOff(s: State) {
    && (s.phase.Idle? || s.phase.Exited?)
    && (!s.signals.open || (!s.inbox.open && s.inbox.queue == []))
  }

  function SignalsLeft(s: State): nat {
    if s.phase.Idle? then |s.signals.queue| + 1 else 0
  }

  lemma CutOffNext(s: State, l: Label)
    requires CutOff(s) && Enabled(s, l)
    ensures var t := Next(s, l);
            && CutOff(t) && t.started == s.started && t.taken == s.taken
            && (if IsAgentStep(l) then 1 else 0) + SignalsLeft(t) <= SignalsLeft(s) + if l.SendSignal? then 1 else 0
  {
    hide HandleControl, IsHaltOrShutdown, IsControlSignal, OnTakeSignal, OnPoll, OnRespond, OnDrain;
  }

  /**
    An idle agent that no message can reach any more ends: it handles at most the signals that are queued
    or still sent, starts nothing, and can always take a step until it has exited.
   */
  lemma {:induction false} ClosedChannelEndsIdle(s: State, labels: seq<Label>)
    requires CutOff(s)
    ensures var t := After(s, labels);
            t.Some? ==>
              && CutOff(t.value) && t.value.started == s.started && t.value.taken == s.taken
              && AgentSteps(labels) + SignalsLeft(t.value) <= SignalsLeft(s) + Sends(labels)
              && (t.value.phase.Exited? <==> !exists l :: IsAgentStep(l) && Enabled(t.value, l))
  {
    hide Next, CutOff;
    if labels != [] {
      var n := |labels| - 1;
      ClosedChannelEndsIdle(s, labels[..n]);
      var t := After(s, labels[..n]);
      if t.Some? && Enabled(t.value, labels[n]) {
        CutOffNext(t.value, labels[n]);
      }
    }
    var t := After(s, labels);
    if t.Some? && !t.value.phase.Exited? {
      var l := CutOffCanStep(t.value);
    }
  }

  lemma CutOffCanStep(s: State) returns (l: Label)
    requires CutOff(s) && !s.phase.Exited?
    ensures IsAgentStep(l) && Enabled(s, l)
  {
    l := if s.signals.Ready() then IdleSignal(None) else IdleMessage(0, None);
  }

  /**
    Signals come first: whenever the agent takes a message while idle, every signal sent so far has been
    handled, whatever was sent and in whatever order the steps were taken.
   */
  lemma SignalsBeforeMessages(inboxCapacity: nat, hasToken: bool, labels: seq<Label>,
                              work: nat, reply: Option<Envelope>)
    ensures var s := After(Spawn(inboxCapacity, hasToken), labels);
            s.Some? && Enabled(s.value, IdleMessage(work, reply)) ==>
              s.value.handled == s.value.sentSignals && s.value.finished == s.value.started
  {
    hide After;
    Reachable(inboxCapacity, hasToken, labels);
    var s := After(Spawn(inboxCapacity, hasToken), labels);
    if s.Some? {
      assert s.value.handled + [] + [] == s.value.handled;
    }
  }

  // ------------------------------------------------------------------
  // Completion and the signal channel
  // ------------------------------------------------------------------

  /**
    Once the signal channel is closed during processing, with or without signals left in it, the first
    branch is always taken: the handler is not polled again, and no run leaves the phase.
   */
  lemma {:induction false} ClosedChannelStarvesHandler(s: State, labels: seq<Label>)
    requires s.phase.Processing? && !s.signals.open
    ensures var r := After(s, labels);
            r.Some? ==> r.value.phase == s.phase && !r.value.signals.open && r.value.finished == s.finished
  {
    hide Next, Enabled;
    if labels != [] {
      var n := |labels| - 1;
      ClosedChannelStarvesHandler(s, labels[..n]);
      var t := After(s, labels[..n]);
      if t.Some? && Enabled(t.value, labels[n]) {
        ClosedStep(t.value, labels[n]);
      }
    }
  }

  lemma ClosedStep(s: State, l: Label)
    requires s.phase.Processing? && !s.signals.open && Enabled(s, l)
    ensures var t := Next(s, l);
            t.phase == s.phase && !t.signals.open && t.finished == s.finished
  {
    hide OnIdleSignal, OnIdleMessage, OnDrain, OnRespond, HandleControl, IsControlSignal, IsHaltOrShutdown;
  }

  /** A run that starts with the step `l`. */
  lemma {:induction false} AfterFirst(s: State, l: Label, rest: seq<Label>)
    requires Enabled(s, l)
    ensures After(s, [l] + rest) == After(Next(s, l), rest)
  {
    hide Enabled, Next;
    if rest == [] {
      assert [l] + rest == [l];
      assert After(s, [l][..0]) == Some(s);
    } else {
      var n := |rest| - 1;
      AfterFirst(s, l, rest[..n]);
      assert ([l] + rest)[..|rest|] == [l] + rest[..n];
    }
  }

  /** With the channel open, taking the queued signals and then polling completes the message. */
  lemma {:induction false} CanComplete(s: State) returns (labels: seq<Label>)
    requires s.phase.Processing? && s.signals.open
    ensures After(s, labels).Some?
    ensures After(s, labels).value.finished == s.finished + [s.phase.message]
    decreases |s.signals.queue| + s.phase.work
  {
    hide After, IsControlSignal, IsHaltOrShutdown;
    var l := if s.signals.Ready() then TakeSignal else Poll(None);
    var t := Next(s, l);
    var rest: seq<Label> := [];
    if t.phase.Processing? {
      rest := CanComplete(t);
    } else {
      AfterNothing(t);
    }
    labels := [l] + rest;
    AfterFirst(s, l, rest);
  }

  lemma AfterNothing(s: State)
    ensures After(s, []) == Some(s)
  {
  }

  /**
    When a handler can finish: some run completes the message in progress if and only if the signal
    channel is still open, whatever is queued in it and however much work is left.
   */
  lemma CompletesIff(s: State)
    requires s.phase.Processing?
    ensures (exists labels :: After(s, labels).Some? && After(s, labels).value.finished != s.finished)
            <==> s.signals.open
  {
    hide After;
    if s.signals.open {
      var labels := CanComplete(s);
      assert After(s, labels).value.finished != s.finished;
    } else {
      forall labels | After(s, labels).Some?
        ensures After(s, labels).value.finished == s.finished
      {
        ClosedChannelStarvesHandler(s, labels);
      }
    }
  }

  /**
    Such a state is reached: the agent takes a message, the last signal sender is dropped, and from then
    on no run finishes the message, which the documentation says is finished first.
   */
  lemma ClosedMidTask(inboxCapacity: nat, hasToken: bool, e: Envelope, work: nat, labels: seq<Label>)
    requires inboxCapacity >= 1 && !IsControlSignal(e)
    ensures var start := Spawn(inboxCapacity, hasToken);
            var s := After(start, [SendMessage(e), IdleMessage(work, None), CloseSignals]);
            && s.Some? && s.value.phase == Processing(e, work) && s.value.started == [e]
            && (After(s.value, labels).Some? ==>
                  After(s.value, labels).value.phase == Processing(e, work)
                  && After(s.value, labels).value.finished == [])
  {
    hide After, IsControlSignal;
    var start := Spawn(inboxCapacity, hasToken);
    var sent := Next(start, SendMessage(e));
    var taken := Next(sent, IdleMessage(work, None));
    var closed := Next(taken, CloseSignals);
    AfterNothing(closed);
    AfterFirst(taken, CloseSignals, []);
    AfterFirst(sent, IdleMessage(work, None), [CloseSignals]);
    AfterFirst(start, SendMessage(e), [IdleMessage(work, None), CloseSignals]);
    assert [CloseSignals] + [] == [CloseSignals];
    assert [IdleMessage(work, None)] + [CloseSignals] == [IdleMessage(work, None), CloseSignals];
    assert [SendMessage(e)] + [IdleMessage(work, None), CloseSignals]
           == [SendMessage(e), IdleMessage(work, None), CloseSignals];
    ClosedChannelStarvesHandler(closed, labels);
  }
}
