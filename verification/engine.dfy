/** The inference loop: generate, intercept, execute, then observe or roll back (`src/inference/engine.rs`). */
module Engine {
  import opened Wrappers
  import opened Texts
  import opened ActionParser
  import opened KvCache
  import opened FailureHistory

  datatype StopSequence = StopSequence(pattern: Text, isActionBoundary: bool)

  datatype ExecutionOutcome =
    | Success(stdout: Text)
    | Failure(exitCode: int, stderr: Text, errorTokenHint: Option<nat>)
    | Timeout(timeoutMs: nat)

  /** What the sandbox answers: an outcome, or an error that ends the session. */
  datatype ExecAnswer = Ran(outcome: ExecutionOutcome) | NotRun(error: InferenceError)

  datatype Config = Config(
    maxTokens: nat,
    maxRollbackRetries: nat,
    stopSequences: seq<StopSequence>,
    prevention: Prevention,
    wording: Phrases,
    tokenize: Text -> Option<seq<Token>>)

  const DEFAULT_STOPS: seq<StopSequence> := [StopSequence("</action>", true), StopSequence("</s>", false)]

  /**
    The environment of one run, as the answers it will give: the tokens the model samples before
    end-of-sequence, the sandbox's answers (after the last one every action succeeds silently), the
    successive readings of the cancel flag (then `false`), and the texts streamed to the caller.
   */
  datatype Host = Host(pending: seq<Token>, outcomes: seq<ActionPayload -> ExecAnswer>,
                       cancels: seq<bool>, streamed: seq<Text>)
  {
    predicate Cancelled() {
      cancels != [] && cancels[0]
    }

    function CancelRead(): Host {
      this.(cancels := Later(cancels))
    }

    function Stream(t: Token): Host {
      this.(streamed := streamed + [t.text])
    }

    function Answer(payload: ActionPayload): ExecAnswer {
      if outcomes == [] then Ran(Success([])) else outcomes[0](payload)
    }

    function Answered(): Host {
      this.(outcomes := Later(outcomes))
    }
  }

  datatype SessionEvent =
    | ActionExecuted(actionType: Text, outcome: ExecutionOutcome)
    | Rollback(position: nat, tokensErased: nat, retryNumber: nat)
    | Warning

  datatype InferenceSession = InferenceSession(
    finalText: Text, totalTokensGenerated: nat, totalRollbacks: nat, totalTokensErased: nat,
    events: seq<SessionEvent>)

  type SessionResult = Fallible<InferenceSession, InferenceError>

  // ------------------------------------------------------------------
  // Generation until a stop
  // ------------------------------------------------------------------

  datatype StopResult = ActionBoundary(generatedText: Text) | Terminal | MaxTokens

  datatype Generated = Generated(line: Line, host: Host, result: Fallible<StopResult, InferenceError>)

  const EMPTY_STATE: InferenceError := BackendError(EmptyState)

  /** The first stop sequence, in configuration order, that the text ends with. */
  function MatchedStop(stops: seq<StopSequence>, text: Text): Option<StopSequence> {
    if stops == [] then None
    else if EndsWith(text, stops[0].pattern) then Some(stops[0])
    else MatchedStop(stops[1..], text)
  }

  /** The stop that is reported is the first of the configuration that the text ends with. */
  lemma {:induction false} MatchedStopIsFirst(stops: seq<StopSequence>, text: Text, i: nat)
    requires i < |stops|
    ensures EndsWith(text, stops[i].pattern) && (forall j :: 0 <= j < i ==> !EndsWith(text, stops[j].pattern)) ==>
              MatchedStop(stops, text) == Some(stops[i])
    ensures MatchedStop(stops, text).None? ==> !EndsWith(text, stops[i].pattern)
    decreases i
  {
    hide EndsWith;
    if i > 0 {
      assert forall j :: 0 <= j < i - 1 ==> stops[1..][j] == stops[j + 1];
      MatchedStopIsFirst(stops[1..], text, i - 1);
    }
  }

  datatype Sampled = Sampled(line: Line, host: Host, result: Fallible<Option<Token>, InferenceError>)

  /** `generate_next`: decode the last token at its position, then sample; `None` is end of sequence. */
  function GenerateNext(l: Line, h: Host): Sampled {
    if l.tokens == [] then Sampled(l, h, Err(EMPTY_STATE))
    else
      var d := EvaluateStep(l, Less(l.cachePosition, 1), [l.tokens[|l.tokens| - 1]]);
      if !d.result.Ok? then Sampled(d.line, h, Err(DECODE_FAILED))
      else if h.pending == [] then Sampled(d.line, h, Ok(None))
      else Sampled(d.line, h.(pending := h.pending[1..]), Ok(Some(h.pending[0])))
  }

  function Generate(cfg: Config, l: Line, h: Host, budget: nat, text: Text): (g: Generated)
    ensures |g.host.pending| <= |h.pending|
    ensures g.result.Ok? && g.result.value.ActionBoundary? ==> |g.host.pending| < |h.pending|
    decreases budget
  {
    if budget == 0 then Generated(l, h, Ok(MaxTokens))
    else if h.Cancelled() then Generated(l, h.CancelRead(), Ok(Terminal))
    else
      var s := GenerateNext(l, h.CancelRead());
      match s.result
      case Err(e) => Generated(s.line, s.host, Err(e))
      case Panic => Generated(s.line, s.host, Panic)
      case Ok(None) => Generated(s.line, s.host, Ok(Terminal))
      case Ok(Some(token)) =>
        var l', h' := s.line.Push([token]), s.host.Stream(token);
        var text' := text + token.text;
        match MatchedStop(cfg.stopSequences, text')
        case Some(stop) =>
          Generated(l', h', Ok(if stop.isActionBoundary then ActionBoundary(text') else Terminal))
        case None => Generate(cfg, l', h', budget - 1, text')
  }

  // ------------------------------------------------------------------
  // One pass of the main loop
  // ------------------------------------------------------------------

  /** An observation written into the buffer: behind everything, or in place of what a rollback cut off. */
  datatype Writing = Appended(at: nat, obs: seq<Token>) | Rewound(at: nat, obs: seq<Token>)

  /**
    The state of a run: what it owns or shares (`line`, `host`, the controller's two counters) and
    its local variables (`retry`, `events`, `history`). The last three fields only serve to state
    properties: the observations written, the failures recorded, the number of generation passes.
   */
  datatype Run = Run(line: Line, host: Host, rollbackCount: nat, totalErased: nat,
                     retry: nat, events: seq<SessionEvent>, history: Option<History>,
                     written: seq<Writing>, faults: seq<Fault>, passes: nat)

  datatype Verdict = Again | Done | Failed(error: InferenceError) | Panicked

  datatype Pass = Pass(run: Run, verdict: Verdict)

  const TOKENIZE_FAILED: InferenceError := BackendError(TokenizationFailed)

  /** The action succeeded: append the observation, decode all but its last token. */
  function OnSuccess(cfg: Config, r: Run, stdout: Text): (p: Pass)
    ensures p.run.host == r.host
  {
    match cfg.tokenize(cfg.wording.Success(stdout))
    case None => Pass(r, Failed(TOKENIZE_FAILED))
    case Some(obs) =>
      var pushed := r.line.Push(obs);
      var e := EvaluateStep(pushed, Less(pushed.cachePosition, |obs|), AllButLast(obs));
      var r' := r.(line := e.line, written := r.written + [Appended(|r.line.tokens|, obs)]);
      if e.result.Ok? then Pass(r'.(retry := 0), Again) else Pass(r', Failed(DECODE_FAILED))
  }

  /** The action failed or timed out: count the attempt, build the observation, roll back to `position`. */
  function OnFault(cfg: Config, r0: Run, position: nat, error: Text, exitCode: int): (p: Pass)
    ensures p.run.host == r0.host
  {
    var r := r0.(retry := r0.retry + 1);
    var n := r.line.cachePosition;
    if r.retry > cfg.maxRollbackRetries then Pass(r, Failed(MaxRetriesExceeded(cfg.maxRollbackRetries)))
    else if position > Min(n, |r.line.tokens|) then Pass(r, Panicked)
    else
      var erased := TextOf(r.line.tokens[position..Min(n, |r.line.tokens|)]);
      match Observe(cfg.wording, r.history, cfg.prevention, position, erased, error, exitCode)
      case None => Pass(r, Panicked)
      case Some(built) =>
        var r1 := r.(history := built.history,
                     faults := r.faults + [Fault(position, MakeRecord(cfg.prevention, erased, error, exitCode))]);
        match cfg.tokenize(built.text)
        case None => Pass(r1, Failed(TOKENIZE_FAILED))
        case Some(obs) => OnObservation(r1, RollbackTarget(position, n), obs)
  }

  function OnObservation(r: Run, target: RollbackTarget, obs: seq<Token>): (p: Pass)
    ensures p.run.host == r.host
  {
    var s := RollbackStep(r.line, target, obs);
    match s.result
    case Ok(erased) =>
      Pass(r.(line := s.line,
              rollbackCount := r.rollbackCount + 1,
              totalErased := r.totalErased + erased,
              events := r.events + [Rollback(target.from, erased, r.retry)],
              written := r.written + [Rewound(target.from, obs)]),
           Again)
    case Err(e) => Pass(r.(line := s.line), Failed(e))
    case Panic => Pass(r.(line := s.line), Panicked)
  }

  /** Run the intercepted action and react to its outcome. */
  function Execute(cfg: Config, r: Run, p: ActionPayload): (x: Pass)
    ensures x.run.host == r.host.Answered()
  {
    var answered := r.(host := r.host.Answered());
    match r.host.Answer(p)
    case NotRun(error) => Pass(answered, Failed(error))
    case Ran(outcome) =>
      var r' := answered.(events := r.events + [ActionExecuted(p.actionType, outcome)]);
      match outcome
      case Success(stdout) => OnSuccess(cfg, r', stdout)
      case Failure(exitCode, stderr, hint) => OnFault(cfg, r', hint.GetOr(p.startTokenPos), stderr, exitCode)
      case Timeout(ms) => OnFault(cfg, r', p.startTokenPos, cfg.wording.TimeoutError(ms), -1)
  }

  /** React to an action boundary. */
  function Intercept(cfg: Config, r: Run, text: Text): (p: Pass)
    ensures p.run.host.pending == r.host.pending
  {
    match ExtractAction(text, r.line.promptEnd)
    case None => Pass(r.(events := r.events + [Warning]), Again)
    case Some(p) => Execute(cfg, r, p)
  }

  function OnePass(cfg: Config, r: Run): (p: Pass)
    ensures p.verdict.Again? ==> |p.run.host.pending| < |r.host.pending|
  {
    if r.host.Cancelled() then Pass(r.(host := r.host.CancelRead()), Done)
    else
      var g := Generate(cfg, r.line, r.host.CancelRead(), cfg.maxTokens, []);
      AfterGeneration(cfg, r.(line := g.line, host := g.host, passes := r.passes + 1), g.result)
  }

  function AfterGeneration(cfg: Config, r: Run, stop: Fallible<StopResult, InferenceError>): (p: Pass)
    ensures p.run.host.pending == r.host.pending
    ensures p.verdict.Again? ==> stop.Ok? && stop.value.ActionBoundary?
  {
    match stop
    case Err(e) => Pass(r, Failed(e))
    case Panic => Pass(r, Panicked)
    case Ok(s) => if s.ActionBoundary? then Intercept(cfg, r, s.generatedText) else Pass(r, Done)
  }

  // ------------------------------------------------------------------
  // Whole runs
  // ------------------------------------------------------------------

  datatype Final = Final(run: Run, result: SessionResult)

  function Loop(cfg: Config, r: Run): Final
    decreases |r.host.pending|
  {
    var p := OnePass(cfg, r);
    match p.verdict
    case Again => Loop(cfg, p.run)
    case Done => Final(p.run, Summary(p.run))
    case Failed(e) => Final(p.run, Err(e))
    case Panicked => Final(p.run, Panic)
  }

  function Summary(r: Run): SessionResult {
    if r.line.promptEnd > |r.line.tokens| then Panic
    else
      Ok(InferenceSession(TextOf(r.line.tokens[r.line.promptEnd..]),
                          Less(|r.line.tokens|, r.line.promptEnd),
                          r.rollbackCount, r.totalErased, r.events))
  }

  /** What a session finds when it starts; the counters survive from earlier sessions. */
  datatype Machine = Machine(cells: Cells, tracked: Option<nat>, ffi: Answers, host: Host,
                             rollbackCount: nat, totalErased: nat)

  function Start(cfg: Config, m: Machine, prompt: seq<Token>): Run {
    Run(Line(prompt, |prompt|, |prompt|, m.cells, m.tracked, m.ffi), m.host,
        m.rollbackCount, m.totalErased, 0, [], if cfg.prevention.enabled then Some(map[]) else None,
        [], [], 0)
  }

  /** `run_streaming` on the tokens of a prompt: prefill, then loop. */
  function Session(cfg: Config, m: Machine, prompt: seq<Token>): Final {
    var r := Start(cfg, m, prompt);
    var e := EvaluateStep(r.line, 0, AllButLast(prompt));
    if e.result.Ok? then Loop(cfg, r.(line := e.line)) else Final(r.(line := e.line), Err(DECODE_FAILED))
  }

  // ------------------------------------------------------------------
  // The mutable objects
  // ------------------------------------------------------------------

  /** Everything outside the crate, consumed answer by answer. */
  class Environment {
    var pending: seq<Token>
    var outcomes: seq<ActionPayload -> ExecAnswer>
    var cancels: seq<bool>
    var streamed: seq<Text>

    ghost function View(): Host
      reads this
    {
      Host(pending, outcomes, cancels, streamed)
    }

    method LoadCancel() returns (cancelled: bool)
      modifies this
      ensures cancelled == old(View()).Cancelled() && View() == old(View()).CancelRead()
    {
      cancelled := cancels != [] && cancels[0];
      cancels := if cancels == [] then [] else cancels[1..];
    }

    /** Sampling: the next token, or end of sequence. */
    method Sample() returns (t: Option<Token>)
      modifies this`pending
      ensures t == if old(pending) == [] then None else Some(old(pending)[0])
      ensures pending == Later(old(pending))
    {
      if pending == [] {
        return None;
      }
      t := Some(pending[0]);
      pending := pending[1..];
    }

    method OnToken(text: Text)
      modifies this`streamed
      ensures streamed == old(streamed) + [text]
    {
      streamed := streamed + [text];
    }

    method Execute(payload: ActionPayload) returns (a: ExecAnswer)
      modifies this
      ensures a == old(View()).Answer(payload) && View() == old(View()).Answered()
    {
      a := if outcomes == [] then Ran(Success([])) else outcomes[0](payload);
      outcomes := if outcomes == [] then [] else outcomes[1..];
    }
  }

  class InferenceEngine {
    const config: Config
    const environment: Environment
    const ctx: LlamaContext
    const kvCache: KvCacheController

    constructor (config: Config, environment: Environment, kvCache: KvCacheController)
      ensures this.config == config && this.environment == environment
      ensures this.kvCache == kvCache && ctx == kvCache.manager.ctx
    {
      this.config := config;
      this.environment := environment;
      this.kvCache := kvCache;
      this.ctx := kvCache.manager.ctx;
    }

    /** The backend and the cache manager share one library context. */
    ghost predicate Valid() {
      ctx == kvCache.manager.ctx
    }

    ghost function MachineView(): Machine
      reads this, environment, ctx, kvCache, kvCache.manager
    {
      Machine(ctx.cells, kvCache.manager.seqPosition, ctx.ffi, environment.View(),
              kvCache.rollbackCount, kvCache.totalTokensErased)
    }

    ghost function RunView(state: GenerationState, log: FailureLog, retry: nat, events: seq<SessionEvent>,
                           written: seq<Writing>, faults: seq<Fault>, passes: nat): Run
      reads this, environment, ctx, kvCache, kvCache.manager, kvCache.manager.ctx, state, log
    {
      Run(kvCache.manager.LineOf(state), environment.View(), kvCache.rollbackCount, kvCache.totalTokensErased,
          retry, events, log.history, written, faults, passes)
    }

    method EvaluateTokens(state: GenerationState, position: nat, tokens: seq<Token>)
      returns (r: Fallible<(), InferenceError>)
      requires Valid()
      modifies ctx
      ensures Step(kvCache.manager.LineOf(state), r)
              == EvaluateStep(old(kvCache.manager.LineOf(state)), position, tokens)
    {
      if tokens == [] {
        return Ok(());
      }
      var ok := ctx.Decode(position, tokens);
      r := if ok then Ok(()) else Err(DECODE_FAILED);
    }

    method GenerateNextToken(state: GenerationState) returns (token: Fallible<Option<Token>, InferenceError>)
      requires Valid()
      modifies ctx, environment
      ensures Sampled(kvCache.manager.LineOf(state), environment.View(), token)
              == GenerateNext(old(kvCache.manager.LineOf(state)), old(environment.View()))
    {
      if state.tokens == [] {
        return Err(EMPTY_STATE);
      }
      var last := if state.cachePosition == 0 then 0 else state.cachePosition - 1;
      var decoded := EvaluateTokens(state, last, [state.tokens[|state.tokens| - 1]]);
      if !decoded.Ok? {
        return Err(DECODE_FAILED);
      }
      var sampled := environment.Sample();
      return Ok(sampled);
    }

    method GenerateUntilStop(state: GenerationState) returns (stop: Fallible<StopResult, InferenceError>)
      requires Valid()
      modifies state, ctx, environment
      ensures Generated(kvCache.manager.LineOf(state), environment.View(), stop)
              == Generate(config, old(kvCache.manager.LineOf(state)), old(environment.View()), config.maxTokens, [])
    {
      hide MatchedStop, GenerateNext;
      var generatedText: Text := [];
      ghost var goal := Generate(config, kvCache.manager.LineOf(state), environment.View(), config.maxTokens, []);
      for i := 0 to config.maxTokens
        invariant Generate(config, kvCache.manager.LineOf(state), environment.View(),
                           config.maxTokens - i, generatedText) == goal
      {
        var cancelled := environment.LoadCancel();
        if cancelled {
          return Ok(Terminal);
        }
        var next := GenerateNextToken(state);
        match next
        case Err(e) => return Err(e);
        case Panic => return Panic;
        case Ok(None) => return Ok(Terminal);
        case Ok(Some(token)) =>
          environment.OnToken(token.text);
          generatedText := generatedText + token.text;
          state.PushToken(token);

          var matched := FindStop(generatedText);
          if matched.Some? {
            return Ok(if matched.value.isActionBoundary then ActionBoundary(generatedText) else Terminal);
          }
      }
      return Ok(MaxTokens);
    }

    method FindStop(text: Text) returns (stop: Option<StopSequence>)
      ensures stop == MatchedStop(config.stopSequences, text)
    {
      var stops := config.stopSequences;
      for i := 0 to |stops|
        invariant MatchedStop(stops, text) == MatchedStop(stops[i..], text)
      {
        if EndsWith(text, stops[i].pattern) {
          return Some(stops[i]);
        }
      }
      return None;
    }

    /** The specification's run `r` describes the current state and local variables. */
    ghost predicate Matches(r: Run, state: GenerationState, log: FailureLog, retry: nat, events: seq<SessionEvent>)
      reads this, environment, ctx, kvCache, kvCache.manager, kvCache.manager.ctx, state, log
    {
      r == RunView(state, log, retry, events, r.written, r.faults, r.passes)
    }

    method ActionSucceeded(state: GenerationState, log: FailureLog, retry: nat, events: seq<SessionEvent>,
                           stdout: Text, ghost r: Run)
      returns (verdict: Verdict, ghost r': Run)
      requires Valid() && Matches(r, state, log, retry, events)
      modifies state, ctx
      ensures Pass(r', verdict) == OnSuccess(config, r, stdout)
      ensures Matches(r', state, log, if verdict.Again? then 0 else retry, events)
    {
      hide Write, Phrases.Success;
      var tokenized := config.tokenize(config.wording.Success(stdout));
      if tokenized.None? {
        return Failed(TOKENIZE_FAILED), r;
      }
      var obs := tokenized.value;
      r' := OnSuccess(config, r, stdout).run;
      state.PushAll(obs);
      var prefillLen := if |obs| == 0 then 0 else |obs| - 1;
      if prefillLen > 0 {
        var position := if |obs| <= state.cachePosition then state.cachePosition - |obs| else 0;
        var e := EvaluateTokens(state, position, obs[..prefillLen]);
        if !e.Ok? {
          return Failed(DECODE_FAILED), r';
        }
      }
      return Again, r';
    }

    method ActionFailed(state: GenerationState, log: FailureLog, retryBefore: nat, events: seq<SessionEvent>,
                        position: nat, error: Text, exitCode: int, ghost r: Run)
      returns (verdict: Verdict, retry: nat, events': seq<SessionEvent>, ghost r': Run)
      requires Valid() && Matches(r, state, log, retryBefore, events)
      modifies state, log, ctx, kvCache, kvCache.manager
      ensures Pass(r', verdict) == OnFault(config, r, position, error, exitCode)
      ensures Matches(r', state, log, retry, events')
    {
      hide RollbackStep, Observe, MakeRecord, TextOf;
      retry := retryBefore + 1;
      events' := events;
      r' := OnFault(config, r, position, error, exitCode).run;
      if retry > config.maxRollbackRetries {
        return Failed(MaxRetriesExceeded(config.maxRollbackRetries)), retry, events', r';
      }
      var end := Min(state.cachePosition, |state.tokens|);
      if position > end {
        return Panicked, retry, events', r';
      }
      var erasedContent := TextOf(state.tokens[position..end]);
      var target := RollbackTarget(position, state.cachePosition);
      var obsText := log.BuildObservation(config.wording, config.prevention, position, erasedContent, error, exitCode);
      if obsText.None? {
        return Panicked, retry, events', r';
      }
      var tokenized := config.tokenize(obsText.value);
      if tokenized.None? {
        return Failed(TOKENIZE_FAILED), retry, events', r';
      }
      var erased := kvCache.Rollback(state, target, tokenized.value);
      match erased
      case Err(e) => return Failed(e), retry, events', r';
      case Panic => return Panicked, retry, events', r';
      case Ok(n) =>
        events' := events + [Rollback(position, n, retry)];
        return Again, retry, events', r';
    }

    method InterceptAction(state: GenerationState, log: FailureLog, retryBefore: nat, events: seq<SessionEvent>,
                           generatedText: Text, ghost r: Run)
      returns (verdict: Verdict, retry: nat, events': seq<SessionEvent>, ghost r': Run)
      requires Valid() && Matches(r, state, log, retryBefore, events)
      modifies state, log, ctx, environment, kvCache, kvCache.manager
      ensures Pass(r', verdict) == Intercept(config, r, generatedText)
      ensures Matches(r', state, log, retry, events')
    {
      hide OnSuccess, OnFault, ExtractAction;
      retry := retryBefore;
      r' := Intercept(config, r, generatedText).run;
      var action := ExtractAction(generatedText, state.promptEnd);
      if action.None? {
        events' := events + [Warning];
        return Again, retry, events', r';
      }
      var payload := action.value;
      var answer := environment.Execute(payload);
      if answer.NotRun? {
        return Failed(answer.error), retry, events, r';
      }
      events' := events + [ActionExecuted(payload.actionType, answer.outcome)];
      ghost var executed := r.(host := r.host.Answered(), events := events');
      match answer.outcome
      case Success(stdout) =>
        verdict, r' := ActionSucceeded(state, log, retry, events', stdout, executed);
        retry := if verdict.Again? then 0 else retry;
      case Failure(exitCode, stderr, hint) =>
        verdict, retry, events', r' :=
          ActionFailed(state, log, retry, events', hint.GetOr(payload.startTokenPos), stderr, exitCode, executed);
      case Timeout(ms) =>
        var error := config.wording.TimeoutError(ms);
        verdict, retry, events', r' :=
          ActionFailed(state, log, retry, events', payload.startTokenPos, error, -1, executed);
    }

    /** One iteration of the main loop. */
    method RunPass(state: GenerationState, log: FailureLog, retryBefore: nat, events: seq<SessionEvent>, ghost r: Run)
      returns (verdict: Verdict, retry: nat, events': seq<SessionEvent>, ghost r': Run)
      requires Valid() && Matches(r, state, log, retryBefore, events)
      modifies state, log, ctx, environment, kvCache, kvCache.manager
      ensures Pass(r', verdict) == OnePass(config, r)
      ensures Matches(r', state, log, retry, events')
    {
      hide Intercept, Generate;
      retry, events' := retryBefore, events;
      var cancelled := environment.LoadCancel();
      if cancelled {
        r' := r.(host := r.host.CancelRead());
        return Done, retry, events', r';
      }
      var stop := GenerateUntilStop(state);
      r' := r.(line := kvCache.manager.LineOf(state), host := environment.View(), passes := r.passes + 1);
      assert OnePass(config, r) == AfterGeneration(config, r', stop);
      match stop
      case Err(e) => return Failed(e), retry, events', r';
      case Panic => return Panicked, retry, events', r';
      case Ok(s) =>
        if !s.ActionBoundary? {
          return Done, retry, events', r';
        }
        verdict, retry, events', r' := InterceptAction(state, log, retry, events, s.generatedText, r');
    }

    method RunStreaming(prompt: Text) returns (result: SessionResult, ghost run: Run)
      requires Valid()
      modifies ctx, environment, kvCache, kvCache.manager
      ensures match config.tokenize(prompt)
              case None => result == Err(TOKENIZE_FAILED) && MachineView() == old(MachineView())
              case Some(tokens) =>
                && Final(run, result) == Session(config, old(MachineView()), tokens)
                && MachineView() == Machine(run.line.cells, run.line.tracked, run.line.ffi, run.host,
                                            run.rollbackCount, run.totalErased)
    {
      run := Start(config, MachineView(), []);
      var tokenized := config.tokenize(prompt);
      if tokenized.None? {
        return Err(TOKENIZE_FAILED), run;
      }
      ghost var goal := Session(config, MachineView(), tokenized.value);
      var state := new GenerationState(tokenized.value);
      var log := new FailureLog(config.prevention);
      var retry: nat := 0;
      var events: seq<SessionEvent> := [];

      var prefillLen := if |state.tokens| == 0 then 0 else |state.tokens| - 1;
      var prefilled := EvaluateTokens(state, 0, state.tokens[..prefillLen]);
      run := RunView(state, log, retry, events, [], [], 0);
      if !prefilled.Ok? {
        return Err(DECODE_FAILED), run;
      }

      while true
        invariant Matches(run, state, log, retry, events)
        invariant Loop(config, run) == goal
        invariant fresh(state) && fresh(log)
        decreases |environment.pending|
      {
        ghost var before := run;
        var verdict;
        verdict, retry, events, run := RunPass(state, log, retry, events, run);
        match verdict {
          case Again =>
          case Done => break;
          case Failed(e) => return Err(e), run;
          case Panicked => return Panic, run;
        }
      }
      result := Finish(state, events, run);
    }

    method Finish(state: GenerationState, events: seq<SessionEvent>, ghost run: Run) returns (result: SessionResult)
      requires run.line == kvCache.manager.LineOf(state) && run.events == events
      requires run.rollbackCount == kvCache.rollbackCount && run.totalErased == kvCache.totalTokensErased
      ensures result == Summary(run)
    {
      if state.promptEnd > |state.tokens| {
        return Panic;
      }
      return Ok(InferenceSession(TextOf(state.tokens[state.promptEnd..]), state.GeneratedCount(),
                                 kvCache.rollbackCount, kvCache.totalTokensErased, events));
    }
  }
}
