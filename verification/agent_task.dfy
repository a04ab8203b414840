/** The spawned agent and its handle as objects (`src/actor/agent.rs`); each method is a step of the state machine. */
module AgentRuntime {
  import opened Wrappers
  import opened AgentLoop

  /** The spawned agent and its two receivers, updated in place by one step at a time. */
  class AgentTask {
    var inbox: Channel
    var signals: Channel
    const inboxCapacity: nat
    const hasToken: bool
    var phase: Phase
    var deferred: seq<Envelope>
    var shouldShutdown: bool
    var cancel: bool
    var hooks: Hooks
    var sendFailed: bool
    ghost var sentSignals: seq<Envelope>
    ghost var sentMessages: seq<Envelope>
    ghost var handled: seq<Envelope>
    ghost var taken: seq<Envelope>
    ghost var started: seq<Envelope>
    ghost var finished: seq<Envelope>

    ghost function View(): State
      reads this
    {
      State(inbox, signals, inboxCapacity, phase, deferred, shouldShutdown, hasToken, cancel,
            sentSignals, sentMessages, handled, taken, started, finished, hooks, sendFailed)
    }

    constructor (inboxCapacity: nat, hasToken: bool)
      ensures View() == Spawn(inboxCapacity, hasToken) && Inv(View())
    {
      this.inboxCapacity, this.hasToken := inboxCapacity, hasToken;
      inbox, signals := Channel([], true), Channel([], true);
      phase, deferred, shouldShutdown, cancel := Idle, [], false, false;
      hooks, sendFailed := Hooks(0, [], [], []), false;
      sentSignals, sentMessages, handled, taken := [], [], [], [];
      started, finished := [], [];
      new;
      SpawnHasInv(inboxCapacity, hasToken);
    }

    /** `handle_control_signal`; the result tells the caller to leave the loop. */
    method HandleControlSignal(e: Envelope, reply: Option<Envelope>) returns (shutdown: bool)
      modifies this`hooks
      ensures hooks == HandleControl(old(hooks), e, reply) && shutdown == IsHaltOrShutdown(e)
    {
      match e.payload
      case SignalPayload(Halt) =>
        hooks := hooks.(shutdowns := hooks.shutdowns + 1);
        return true;
      case SignalPayload(Shutdown) =>
        hooks := hooks.(shutdowns := hooks.shutdowns + 1);
        return true;
      case SignalPayload(Interrupt(_, _)) =>
        hooks := hooks.(interrupted := hooks.interrupted + [e]);
        if reply.Some? {
          hooks := hooks.(answered := hooks.answered + [reply.value], outbox := hooks.outbox + [reply.value]);
        }
        return false;
      case _ => return false;
    }

    /** Phase 1, signal branch. */
    method IdleSignalStep(reply: Option<Envelope>)
      requires phase.Idle? && signals.Ready()
      modifies this
      ensures View() == OnIdleSignal(old(View()), reply)
    {
      hide HandleControl, IsHaltOrShutdown;
      if signals.queue == [] {
        phase := Exited;
        return;
      }
      var e := signals.queue[0];
      var shutdown := HandleControlSignal(e, reply);
      signals := signals.Pop();
      handled := handled + [e];
      if shutdown {
        phase := Exited;
      }
    }

    /** Phase 1, inbox branch. */
    method IdleMessageStep(work: nat, reply: Option<Envelope>)
      requires phase.Idle? && inbox.Ready()
      modifies this
      ensures View() == OnIdleMessage(old(View()), work, reply)
    {
      hide HandleControl, IsHaltOrShutdown, IsControlSignal;
      if inbox.queue == [] {
        phase := Exited;
        return;
      }
      var e := inbox.queue[0];
      inbox := inbox.Pop();
      taken := taken + [e];
      if IsControlSignal(e) {
        var shutdown := HandleControlSignal(e, reply);
        if shutdown {
          phase := Exited;
        }
        return;
      }
      Begin(e, work);
    }

    /** Enter phase 2 with a message. */
    method Begin(e: Envelope, work: nat)
      modifies this
      ensures View() == old(View()).(phase := Processing(e, work), started := old(started) + [e],
                                     deferred := [], shouldShutdown := false)
    {
      started := started + [e];
      deferred, shouldShutdown := [], false;
      phase := Processing(e, work);
    }

    /** Phase 2: a signal, else the handler. */
    method ProcessingStep(response: Option<Envelope>)
      requires phase.Processing?
      modifies this
      ensures View() == if old(signals).Ready() then OnTakeSignal(old(View())) else OnPoll(old(View()), response)
    {
      hide OnTakeSignal, OnPoll;
      if signals.Ready() {
        TakeSignalStep();
      } else {
        PollStep(response);
      }
    }

    /** Phase 2, signal branch. */
    method TakeSignalStep()
      requires phase.Processing? && signals.Ready()
      modifies this
      ensures View() == OnTakeSignal(old(View()))
    {
      hide IsHaltOrShutdown, IsControlSignal;
      if signals.queue == [] {
        shouldShutdown := true;
        return;
      }
      var e := signals.queue[0];
      signals := signals.Pop();
      if hasToken {
        if IsControlSignal(e) {
          cancel := true;
        }
      }
      if IsHaltOrShutdown(e) {
        shouldShutdown := true;
      }
      deferred := deferred + [e];
    }

    /** Phase 2, handler branch. */
    method PollStep(response: Option<Envelope>)
      requires phase.Processing?
      modifies this
      ensures View() == OnPoll(old(View()), response)
    {
      if phase.work > 0 {
        phase := Processing(phase.message, phase.work - 1);
      } else {
        finished := finished + [phase.message];
        hooks := hooks.(answered := hooks.answered + Sequence(response));
        phase := Responding(response);
      }
    }

    method RespondStep(delivered: bool)
      requires phase.Responding?
      modifies this
      ensures View() == OnRespond(old(View()), delivered)
    {
      if phase.response.Some? {
        if !delivered {
          sendFailed := true;
          phase := Exited;
          return;
        }
        hooks := hooks.(outbox := hooks.outbox + [phase.response.value]);
      }
      phase := Draining;
    }

    method DrainStep(reply: Option<Envelope>)
      requires phase.Draining?
      modifies this
      ensures View() == OnDrain(old(View()), reply)
    {
      hide HandleControl, IsHaltOrShutdown;
      if deferred == [] {
        phase := if shouldShutdown then Exited else Idle;
        return;
      }
      var e := deferred[0];
      var shutdown := HandleControlSignal(e, reply);
      deferred := deferred[1..];
      handled := handled + [e];
      if shutdown {
        shouldShutdown := true;
      }
    }

    /** The next step of the agent. Every step keeps the invariant. */
    method Step(work: nat, reply: Option<Envelope>, response: Option<Envelope>, delivered: bool)
      returns (ghost l: Label)
      requires Inv(View())
      requires phase.Idle? ==> signals.Ready() || inbox.Ready()
      requires !phase.Exited?
      modifies this
      ensures IsAgentStep(l) && Enabled(old(View()), l) && View() == Next(old(View()), l)
      ensures Inv(View())
    {
      hide Inv, OnIdleSignal, OnIdleMessage, OnTakeSignal, OnDrain, OnPoll, OnRespond;
      match phase
      case Idle =>
        // The biased `select!` looks at the signal channel first.
        l := if signals.Ready() then IdleSignal(reply) else IdleMessage(work, reply);
        NextKeepsInv(View(), l);
        if signals.Ready() {
          IdleSignalStep(reply);
        } else {
          IdleMessageStep(work, reply);
        }
      case Processing(_, _) =>
        l := if signals.Ready() then TakeSignal else Poll(response);
        NextKeepsInv(View(), l);
        ProcessingStep(response);
      case Responding(_) =>
        l := Respond(delivered);
        NextKeepsInv(View(), l);
        RespondStep(delivered);
      case Draining =>
        l := Drain(reply);
        NextKeepsInv(View(), l);
        DrainStep(reply);
    }
  }

  /** What a poll of a pending `send` finds: room in the channel, no receiver any more, or neither yet. */
  datatype Delivery = Delivered | Refused | Waiting

  function DeliveryTo(exited: bool, queued: nat, capacity: nat): Delivery {
    if exited then Refused else if queued < capacity then Delivered else Waiting
  }

  /** The handle of a spawned agent: it owns the senders of both channels. */
  class AgentHandle {
    const task: AgentTask

    constructor (inboxCapacity: nat, hasToken: bool)
      ensures fresh(task) && task.View() == Spawn(inboxCapacity, hasToken) && Inv(task.View())
      ensures Valid()
    {
      task := new AgentTask(inboxCapacity, hasToken);
    }

    /** The senders are not dropped yet. */
    ghost predicate Valid()
      reads task
    {
      task.inbox.open && task.signals.open && Inv(task.View())
    }

    /** The negation of `JoinHandle::is_finished`. */
    predicate IsAlive()
      reads task
    {
      !task.phase.Exited?
    }

    /** One poll of `send`. */
    method Send(e: Envelope) returns (d: Delivery)
      requires Valid()
      modifies task
      ensures Valid() && (d.Refused? <==> !old(IsAlive()))
      ensures d.Delivered? <==> old(IsAlive() && |task.inbox.queue| < task.inboxCapacity)
      ensures d.Delivered? ==>
                Enabled(old(task.View()), SendMessage(e)) && task.View() == Next(old(task.View()), SendMessage(e))
      ensures !d.Delivered? ==> task.View() == old(task.View())
    {
      hide Inv;
      d := DeliveryTo(!IsAlive(), |task.inbox.queue|, task.inboxCapacity);
      if d.Delivered? {
        NextKeepsInv(task.View(), SendMessage(e));
        task.inbox := Channel(task.inbox.queue + [e], task.inbox.open);
        task.sentMessages := task.sentMessages + [e];
      }
    }

    /** One poll of a send on the signal channel, which bypasses the inbox. */
    method PostSignal(e: Envelope) returns (d: Delivery)
      requires Valid()
      modifies task
      ensures Valid() && (d.Refused? <==> !old(IsAlive()))
      ensures d.Delivered? <==> old(IsAlive() && |task.signals.queue| < SIGNAL_CAPACITY)
      ensures d.Delivered? ==>
                Enabled(old(task.View()), SendSignal(e)) && task.View() == Next(old(task.View()), SendSignal(e))
      ensures !d.Delivered? ==> task.View() == old(task.View())
    {
      hide Inv;
      d := DeliveryTo(!IsAlive(), |task.signals.queue|, SIGNAL_CAPACITY);
      if d.Delivered? {
        NextKeepsInv(task.View(), SendSignal(e));
        task.signals := Channel(task.signals.queue + [e], task.signals.open);
        task.sentSignals := task.sentSignals + [e];
      }
    }

    /** One poll of `interrupt`. */
    method SendInterrupt(id: nat, reason: string, severity: nat) returns (d: Delivery)
      requires Valid()
      modifies task
      ensures Valid() && (d.Refused? <==> !old(IsAlive()))
      ensures d.Delivered? <==> old(IsAlive() && |task.signals.queue| < SIGNAL_CAPACITY)
      ensures d.Delivered? ==>
                var e := Envelope(id, SignalPayload(Interrupt(reason, severity)));
                task.View() == Next(old(task.View()), SendSignal(e)) && task.inbox == old(task.inbox)
      ensures !d.Delivered? ==> task.View() == old(task.View())
    {
      d := PostSignal(Envelope(id, SignalPayload(Interrupt(reason, severity))));
    }

    /** One poll of `halt`. */
    method SendHalt(id: nat) returns (d: Delivery)
      requires Valid()
      modifies task
      ensures Valid() && (d.Refused? <==> !old(IsAlive()))
      ensures d.Delivered? <==> old(IsAlive() && |task.signals.queue| < SIGNAL_CAPACITY)
      ensures d.Delivered? ==>
                var e := Envelope(id, SignalPayload(Halt));
                task.View() == Next(old(task.View()), SendSignal(e)) && task.inbox == old(task.inbox)
      ensures !d.Delivered? ==> task.View() == old(task.View())
    {
      d := PostSignal(Envelope(id, SignalPayload(Halt)));
    }

    /** Dropping the handle closes both channels. */
    method Drop()
      requires Valid()
      modifies task
      ensures task.View() == Next(Next(old(task.View()), CloseSignals), CloseInbox) && Inv(task.View())
    {
      hide Inv;
      NextKeepsInv(task.View(), CloseSignals);
      NextKeepsInv(Next(task.View(), CloseSignals), CloseInbox);
      task.signals := Channel(task.signals.queue, false);
      task.inbox := Channel(task.inbox.queue, false);
    }
  }
}
