/**
  What every inference session keeps, from its first pass to its result: token accounting, the
  grammar of its event log, coherence of buffer and cache, soundness of rollback anchors, progress.
 */
module SessionProperties {
  import opened Wrappers
  import opened Texts
  import opened ActionParser
  import opened KvCache
  import opened FailureHistory
  import opened Engine

  // ------------------------------------------------------------------
  // Reference definitions over the event log
  // ------------------------------------------------------------------

  predicate IsFault(e: SessionEvent) {
    e.ActionExecuted? && !e.outcome.Success?
  }

  predicate IsSuccess(e: SessionEvent) {
    e.ActionExecuted? && e.outcome.Success?
  }

  function Rollbacks(events: seq<SessionEvent>): nat {
    if events == [] then 0
    else Rollbacks(events[..|events| - 1]) + if events[|events| - 1].Rollback? then 1 else 0
  }

  function Erased(events: seq<SessionEvent>): nat {
    if events == [] then 0
    else
      var e := events[|events| - 1];
      Erased(events[..|events| - 1]) + if e.Rollback? then e.tokensErased else 0
  }

  /**
    The grammar of complete logs, (Warning | Success | Fault Rollback)*, together with the number of
    faults since the last success; every rollback must carry that number. `None`: not in the grammar.
   */
  function RetriesAfter(events: seq<SessionEvent>): Option<nat> {
    if events == [] then Some(0)
    else
      var n := |events|;
      match events[n - 1]
      case Warning => RetriesAfter(events[..n - 1])
      case ActionExecuted(_, outcome) =>
        if outcome.Success? && RetriesAfter(events[..n - 1]).Some? then Some(0) else None
      case Rollback(_, _, number) =>
        if n >= 2 && IsFault(events[n - 2]) && RetriesAfter(events[..n - 2]).Some?
           && number == RetriesAfter(events[..n - 2]).value + 1
        then Some(number) else None
  }

  /** The log ends with the fault that exceeds the retry budget. */
  predicate BudgetBlown(cfg: Config, events: seq<SessionEvent>) {
    && events != [] && IsFault(events[|events| - 1])
    && RetriesAfter(events[..|events| - 1]) == Some(cfg.maxRollbackRetries)
  }

  /** The sandbox never reports an exceeded retry budget itself. */
  ghost predicate LeavesBudget(outcomes: seq<ActionPayload -> ExecAnswer>) {
    forall i, p :: 0 <= i < |outcomes| ==> !RaisesBudget(outcomes[i](p))
  }

  predicate RaisesBudget(a: ExecAnswer) {
    a.NotRun? && a.error.MaxRetriesExceeded?
  }

  /** The session ends with an exceeded retry budget. */
  predicate EndsOverBudget(v: Verdict) {
    v.Failed? && v.error.MaxRetriesExceeded?
  }

  lemma AppendEvent(events: seq<SessionEvent>, e: SessionEvent)
    ensures (events + [e])[..|events|] == events
    ensures Rollbacks(events + [e]) == Rollbacks(events) + if e.Rollback? then 1 else 0
    ensures Erased(events + [e]) == Erased(events) + if e.Rollback? then e.tokensErased else 0
    ensures e.Warning? ==> RetriesAfter(events + [e]) == RetriesAfter(events)
    ensures IsSuccess(e) && RetriesAfter(events).Some? ==> RetriesAfter(events + [e]) == Some(0)
    ensures IsFault(e) ==> RetriesAfter(events + [e]).None?
  {
    assert (events + [e])[..|events|] == events;
  }

  lemma AppendFaultAndRollback(events: seq<SessionEvent>, f: SessionEvent, rb: SessionEvent)
    requires IsFault(f) && rb.Rollback?
    requires RetriesAfter(events).Some? && rb.retryNumber == RetriesAfter(events).value + 1
    ensures RetriesAfter(events + [f] + [rb]) == Some(rb.retryNumber)
  {
    var all := events + [f] + [rb];
    assert all[..|all| - 2] == events;
  }

  // ------------------------------------------------------------------
  // Reference definitions over the observations written
  // ------------------------------------------------------------------

  /** The tokens of all observations written. */
  function Observed(written: seq<Writing>): nat {
    if written == [] then 0
    else Observed(written[..|written| - 1]) + |written[|written| - 1].obs|
  }

  /**
    The positions that success observations left uncached: each the one before a non-empty observation
    was appended, until a rollback cuts it off.
   */
  function Holes(written: seq<Writing>): set<nat> {
    if written == [] then {}
    else HolesWith(Holes(written[..|written| - 1]), written[|written| - 1])
  }

  function HolesWith(holes: set<nat>, w: Writing): set<nat> {
    match w
    case Appended(at, obs) => if obs == [] || at == 0 then holes else holes + {at - 1}
    case Rewound(at, _) => Below(holes, at)
  }

  lemma WriteOnce(written: seq<Writing>, w: Writing)
    ensures Observed(written + [w]) == Observed(written) + |w.obs|
    ensures Holes(written + [w]) == HolesWith(Holes(written), w)
  {
    hide HolesWith;
    assert (written + [w])[..|written|] == written;
  }

  // ------------------------------------------------------------------
  // What one call of the generator does
  // ------------------------------------------------------------------

  /** The texts of tokens, one by one. */
  function TextsOf(tokens: seq<Token>): (r: seq<Text>)
    ensures |r| == |tokens|
  {
    seq(|tokens|, i requires 0 <= i < |tokens| => tokens[i].text)
  }

  /** `g` is what remains after the generator moved `k` pending tokens to the buffer and to the stream. */
  ghost predicate Moved(l: Line, h: Host, text: Text, k: nat, g: Generated) {
    && k <= |h.pending|
    && g.host.pending == h.pending[k..]
    && g.host.outcomes == h.outcomes
    && g.host.streamed == h.streamed + TextsOf(h.pending[..k])
    && g.line.tokens == l.tokens + h.pending[..k]
    && g.line.cachePosition == |g.line.tokens|
    && g.line.promptEnd == l.promptEnd && g.line.tracked == l.tracked
    && !g.result.Panic?
    && (g.result.Err? ==> g.result.error in {EMPTY_STATE, DECODE_FAILED})
    && (g.result.Ok? && g.result.value.ActionBoundary? ==>
          g.result.value.generatedText == text + TextOf(h.pending[..k]))
  }

  lemma MovedOneMore(l: Line, h: Host, text: Text, l': Line, h': Host, j: nat, g: Generated)
    requires h.pending != []
    requires var t := h.pending[0];
             && h'.pending == h.pending[1..] && h'.outcomes == h.outcomes && h'.streamed == h.streamed + [t.text]
             && l'.tokens == l.tokens + [t] && l'.promptEnd == l.promptEnd && l'.tracked == l.tracked
             && Moved(l', h', text + t.text, j, g)
    ensures Moved(l, h, text, j + 1, g)
  {
    var t, rest := h.pending[0], h.pending[1..][..j];
    assert h.pending[..j + 1] == [t] + rest;
    assert h.pending[1..][j..] == h.pending[j + 1..];
    assert l.tokens + ([t] + rest) == l.tokens + [t] + rest;
    assert h.streamed + TextsOf([t] + rest) == h.streamed + [t.text] + TextsOf(rest);
    TextOfConcat([t], rest);
    TextOfPush([], t);
    assert [] + [t] == [t];
    assert text + t.text + TextOf(rest) == text + TextOf([t] + rest);
  }

  lemma {:induction false} GenerateMovesTokens(cfg: Config, l: Line, h: Host, budget: nat, text: Text)
    returns (k: nat)
    requires l.cachePosition == |l.tokens|
    ensures Moved(l, h, text, k, Generate(cfg, l, h, budget, text))
    decreases budget
  {
    hide Write, MatchedStop, Decoded, TextOf;
    k := 0;
    TextOfNothing();
    if budget != 0 && !h.Cancelled() {
      var s := GenerateNext(l, h.CancelRead());
      if s.result.Ok? && s.result.value.Some? {
        var t := h.pending[0];
        var l', h', text' := s.line.Push([t]), s.host.Stream(t), text + t.text;
        var g := Generate(cfg, l, h, budget, text);
        if MatchedStop(cfg.stopSequences, text').None? {
          k := GenerateMovesTokens(cfg, l', h', budget - 1, text');
        } else {
          assert h'.pending[..0] == [] && l'.tokens + [] == l'.tokens && text' + [] == text';
        }
        MovedOneMore(l, h, text, l', h', k, g);
        k := k + 1;
      }
    }
  }

  /** Either generation may resume, or the model has just been evaluated on the whole buffer. */
  ghost predicate AtRest(l: Line, holes: set<nat>) {
    || Coherent(l, holes)
    || (l.cachePosition == |l.tokens| && CachedExactly(l.tokens, l.cells, |l.tokens|, holes))
  }

  lemma {:induction false} GenerateIsCoherent(cfg: Config, l: Line, h: Host, budget: nat, text: Text, holes: set<nat>)
    requires Coherent(l, holes)
    ensures var g := Generate(cfg, l, h, budget, text);
            && (g.result.Ok? ==> AtRest(g.line, holes))
            && (g.result.Ok? && !g.result.value.Terminal? ==> Coherent(g.line, holes))
    decreases budget
  {
    hide Write, MatchedStop, CachedExactly;
    if budget != 0 && !h.Cancelled() && l.tokens != [] {
      var s := GenerateNext(l, h.CancelRead());
      if s.result.Ok? {
        GenerateKeepsCoherence(l, holes, if h.pending == [] then l.tokens[0] else h.pending[0]);
        if s.result.value.Some? {
          var t := h.pending[0];
          GenerateIsCoherent(cfg, s.line.Push([t]), s.host.Stream(t), budget - 1, text + t.text, holes);
        }
      }
    }
  }

  // ------------------------------------------------------------------
  // Token accounting, counters, retries
  // ------------------------------------------------------------------

  datatype Origin = Origin(prompt: seq<Token>, streamed: nat, rollbackCount: nat, totalErased: nat)

  function OriginOf(m: Machine, prompt: seq<Token>): Origin {
    Origin(prompt, |m.host.streamed|, m.rollbackCount, m.totalErased)
  }

  /**
    The buffer starts with the prompt. Every token generated or observed is in the buffer or was
    erased by a rollback of the log, and the controller's counters grew by exactly those rollbacks.
   */
  ghost predicate Accounted(o: Origin, r: Run) {
    && r.line.cachePosition == |r.line.tokens|
    && r.line.promptEnd == |o.prompt| && o.prompt <= r.line.tokens
    && |r.host.streamed| - o.streamed + Observed(r.written) == |r.line.tokens| - |o.prompt| + Erased(r.events)
    && r.rollbackCount == o.rollbackCount + Rollbacks(r.events)
    && r.totalErased == o.totalErased + Erased(r.events)
  }

  /** The log is in the grammar, and the retry counter is the number of faults since the last success. */
  ghost predicate Disciplined(cfg: Config, r: Run) {
    RetriesAfter(r.events) == Some(r.retry) && r.retry <= cfg.maxRollbackRetries
  }

  /** The failure history is the replay of the faults of this run. */
  ghost predicate Remembered(cfg: Config, r: Run) {
    r.history ==
    if !cfg.prevention.enabled then None
    else if cfg.prevention.maxHistoryPerPosition == 0 then Some(map[])
    else Some(Replay(r.faults, cfg.prevention.maxHistoryPerPosition))
  }

  ghost predicate Kept(o: Origin, cfg: Config, r: Run) {
    Accounted(o, r) && Disciplined(cfg, r) && Remembered(cfg, r)
  }

  lemma FaultKeeps(o: Origin, cfg: Config, r: Run, e: SessionEvent, position: nat, error: Text, exitCode: int)
    requires Kept(o, cfg, r) && IsFault(e)
    ensures var p := OnFault(cfg, r.(events := r.events + [e]), position, error, exitCode);
            && (p.verdict.Again? ==> Kept(o, cfg, p.run))
            && !p.verdict.Done?
            && (BudgetBlown(cfg, p.run.events) <==> EndsOverBudget(p.verdict))
            && (EndsOverBudget(p.verdict) ==> p.verdict.error.maxRetries == cfg.maxRollbackRetries)
  {
    hide RollbackStep, MakeRecord, TextOf, OnObservation;
    var r1 := r.(events := r.events + [e]);
    var n := r.line.cachePosition;
    AppendEvent(r.events, e);
    if r.retry < cfg.maxRollbackRetries && position <= n {
      var erased := TextOf(r.line.tokens[position..n]);
      var built := Observe(cfg.wording, r.history, cfg.prevention, position, erased, error, exitCode);
      if built.Some? && cfg.tokenize(built.value.text).Some? {
        var fault := Fault(position, MakeRecord(cfg.prevention, erased, error, exitCode));
        var r2 := r1.(retry := r.retry + 1, history := built.value.history, faults := r.faults + [fault]);
        assert r2.faults[..|r.faults|] == r.faults;
        assert Remembered(cfg, r2);
        RollbackKeeps(o, cfg, r, e, r2, RollbackTarget(position, n), cfg.tokenize(built.value.text).value);
      }
    }
  }

  lemma RollbackErrors(l: Line, target: RollbackTarget, obs: seq<Token>)
    ensures var s := RollbackStep(l, target, obs);
            !s.result.Panic? && (s.result.Err? ==> !s.result.error.MaxRetriesExceeded?)
  {
  }

  /** The second half of a fault: rollback and its event. */
  lemma RollbackKeeps(o: Origin, cfg: Config, r: Run, e: SessionEvent, r2: Run,
                      target: RollbackTarget, obs: seq<Token>)
    requires Kept(o, cfg, r) && IsFault(e)
    requires r2.line == r.line && r2.host == r.host && r2.written == r.written
    requires r2.rollbackCount == r.rollbackCount && r2.totalErased == r.totalErased
    requires r2.events == r.events + [e] && r2.retry == r.retry + 1 <= cfg.maxRollbackRetries
    requires Remembered(cfg, r2) && target.to == r.line.cachePosition
    ensures var p := OnObservation(r2, target, obs);
            && (p.verdict.Again? ==> Kept(o, cfg, p.run))
            && !p.verdict.Done?
            && !BudgetBlown(cfg, p.run.events)
            && (p.verdict.Failed? ==> !p.verdict.error.MaxRetriesExceeded?)
  {
    hide RollbackStep;
    RollbackErrors(r.line, target, obs);
    var p := OnObservation(r2, target, obs);
    AppendEvent(r.events, e);
    WriteOnce(r.written, Rewound(target.from, obs));
    if p.verdict.Again? {
      RollbackBuffer(r.line, target, obs);
      var rb := Rollback(target.from, target.to - target.from, r2.retry);
      AppendEvent(r2.events, rb);
      AppendFaultAndRollback(r.events, e, rb);
    }
  }

  lemma SuccessKeeps(o: Origin, cfg: Config, r: Run, e: SessionEvent, stdout: Text)
    requires Kept(o, cfg, r) && IsSuccess(e)
    ensures var p := OnSuccess(cfg, r.(events := r.events + [e]), stdout);
            && (p.verdict.Again? ==> Kept(o, cfg, p.run))
            && !p.verdict.Done?
            && !BudgetBlown(cfg, p.run.events)
            && (p.verdict.Failed? ==> !p.verdict.error.MaxRetriesExceeded?)
  {
    hide Holes, HolesWith, Observed, RetriesAfter, Rollbacks, Erased, Write, Phrases.Success;
    AppendEvent(r.events, e);
    var obs := cfg.tokenize(cfg.wording.Success(stdout)).GetOr([]);
    WriteOnce(r.written, Appended(|r.line.tokens|, obs));
  }

  /**
    A budget is reported exceeded exactly when the log says so, or when the sandbox reported it: the log
    is complete then.
   */
  ghost predicate Budgeted(cfg: Config, outcomes: seq<ActionPayload -> ExecAnswer>, p: Pass) {
    && (BudgetBlown(cfg, p.run.events) <==> EndsOverBudget(p.verdict) && RetriesAfter(p.run.events).None?)
    && (BudgetBlown(cfg, p.run.events) ==> p.verdict.error.maxRetries == cfg.maxRollbackRetries)
    && (LeavesBudget(outcomes) ==>
          && (EndsOverBudget(p.verdict) ==> BudgetBlown(cfg, p.run.events))
          && LeavesBudget(p.run.host.outcomes))
  }

  lemma InterceptKeeps(o: Origin, cfg: Config, r: Run, text: Text)
    requires Kept(o, cfg, r)
    ensures var p := Intercept(cfg, r, text);
            && (p.verdict.Again? ==> Kept(o, cfg, p.run))
            && !p.verdict.Done?
            && Budgeted(cfg, r.host.outcomes, p)
  {
    hide OnSuccess, OnFault, ExtractAction;
    var action := ExtractAction(text, r.line.promptEnd);
    if action.None? {
      AppendEvent(r.events, Warning);
    } else {
      var answer := r.host.Answer(action.value);
      if answer.Ran? {
        var e := ActionExecuted(action.value.actionType, answer.outcome);
        var r' := r.(host := r.host.Answered());
        assert Kept(o, cfg, r');
        match answer.outcome
        case Success(stdout) => SuccessKeeps(o, cfg, r', e, stdout);
        case Failure(exitCode, stderr, hint) =>
          FaultKeeps(o, cfg, r', e, hint.GetOr(action.value.startTokenPos), stderr, exitCode);
        case Timeout(ms) =>
          FaultKeeps(o, cfg, r', e, action.value.startTokenPos, cfg.wording.TimeoutError(ms), -1);
      }
    }
  }

  lemma GenerationKeeps(o: Origin, cfg: Config, r: Run, r': Run, k: nat)
    requires Kept(o, cfg, r)
    requires k <= |r.host.pending| && r'.line.tokens == r.line.tokens + r.host.pending[..k]
    requires r'.line.cachePosition == |r'.line.tokens| && r'.line.promptEnd == r.line.promptEnd
    requires |r'.host.streamed| == |r.host.streamed| + k
    requires r' == r.(line := r'.line, host := r'.host, passes := r'.passes)
    ensures Kept(o, cfg, r')
  {
  }

  ghost predicate PassOutcome(o: Origin, cfg: Config, outcomes: seq<ActionPayload -> ExecAnswer>, p: Pass) {
    && (p.verdict.Again? || p.verdict.Done? ==> Kept(o, cfg, p.run))
    && Budgeted(cfg, outcomes, p)
  }

  lemma AfterGenerationKeeps(o: Origin, cfg: Config, r: Run, stop: Fallible<StopResult, InferenceError>)
    requires Kept(o, cfg, r)
    requires stop.Err? ==> stop.error in {EMPTY_STATE, DECODE_FAILED}
    ensures PassOutcome(o, cfg, r.host.outcomes, AfterGeneration(cfg, r, stop))
  {
    hide Intercept;
    if stop.Ok? && stop.value.ActionBoundary? {
      InterceptKeeps(o, cfg, r, stop.value.generatedText);
    }
  }

  /** A pass that is not cancelled: generation, then the reaction to the stop. */
  lemma PassAnatomy(cfg: Config, r: Run) returns (r': Run, g: Generated, k: nat)
    requires !r.host.Cancelled() && r.line.cachePosition == |r.line.tokens|
    ensures g == Generate(cfg, r.line, r.host.CancelRead(), cfg.maxTokens, [])
    ensures r' == r.(line := g.line, host := g.host, passes := r.passes + 1)
    ensures OnePass(cfg, r) == AfterGeneration(cfg, r', g.result)
    ensures Moved(r.line, r.host.CancelRead(), [], k, g)
    ensures g.result.Ok? && g.result.value.ActionBoundary? ==> k >= 1
  {
    hide AfterGeneration;
    g := Generate(cfg, r.line, r.host.CancelRead(), cfg.maxTokens, []);
    r' := r.(line := g.line, host := g.host, passes := r.passes + 1);
    k := GenerateMovesTokens(cfg, r.line, r.host.CancelRead(), cfg.maxTokens, []);
  }

  /** A fault that loops back: its history entry, then a rollback with a tokenized observation. */
  lemma FaultAnatomy(cfg: Config, r: Run, position: nat, error: Text, exitCode: int)
    returns (r2: Run, text: Text, obs: seq<Token>)
    requires OnFault(cfg, r, position, error, exitCode).verdict.Again?
    ensures text != [] && cfg.tokenize(text) == Some(obs)
    ensures r2.line == r.line && r2.host == r.host && r2.events == r.events && r2.written == r.written
    ensures var target := RollbackTarget(position, r.line.cachePosition);
            && OnFault(cfg, r, position, error, exitCode) == OnObservation(r2, target, obs)
            && RollbackStep(r.line, target, obs).result.Ok?
  {
    hide RollbackStep, MakeRecord, TextOf;
    var erased := TextOf(r.line.tokens[position..Min(r.line.cachePosition, |r.line.tokens|)]);
    var built := Observe(cfg.wording, r.history, cfg.prevention, position, erased, error, exitCode).value;
    ObservationIsNotEmpty(cfg, r, position, erased, error, exitCode);
    text := built.text;
    obs := cfg.tokenize(text).value;
    r2 := r.(retry := r.retry + 1, history := built.history,
             faults := r.faults + [Fault(position, MakeRecord(cfg.prevention, erased, error, exitCode))]);
  }

  /** One pass keeps every account; it reports an exceeded budget exactly when the log or the sandbox says so. */
  lemma PassKeeps(o: Origin, cfg: Config, r: Run)
    requires Kept(o, cfg, r)
    ensures PassOutcome(o, cfg, r.host.outcomes, OnePass(cfg, r))
  {
    hide AfterGeneration, Generate;
    if !r.host.Cancelled() {
      var r', g, k := PassAnatomy(cfg, r);
      GenerationKeeps(o, cfg, r, r', k);
      AfterGenerationKeeps(o, cfg, r', g.result);
    } else {
      assert OnePass(cfg, r).run.events == r.events;
    }
  }

  ghost predicate SessionBudgeted(cfg: Config, outcomes: seq<ActionPayload -> ExecAnswer>, f: Final) {
    var over := f.result.Err? && f.result.error.MaxRetriesExceeded?;
    && (BudgetBlown(cfg, f.run.events) <==> over && RetriesAfter(f.run.events).None?)
    && (BudgetBlown(cfg, f.run.events) ==> f.result.error.maxRetries == cfg.maxRollbackRetries)
    && (LeavesBudget(outcomes) ==> (over <==> BudgetBlown(cfg, f.run.events)))
  }

  lemma {:induction false} LoopKeeps(o: Origin, cfg: Config, r: Run)
    requires Kept(o, cfg, r)
    ensures var f := Loop(cfg, r);
            && (f.result.Ok? ==> Kept(o, cfg, f.run))
            && SessionBudgeted(cfg, r.host.outcomes, f)
    decreases |r.host.pending|
  {
    hide OnePass, BudgetBlown, Accounted, Disciplined, Remembered;
    PassKeeps(o, cfg, r);
    var p := OnePass(cfg, r);
    if p.verdict.Again? {
      LoopKeeps(o, cfg, p.run);
    }
  }

  lemma StartIsKept(cfg: Config, m: Machine, prompt: seq<Token>, line: Line)
    requires line.tokens == prompt && line.promptEnd == line.cachePosition == |prompt|
    ensures Kept(OriginOf(m, prompt), cfg, Start(cfg, m, prompt).(line := line))
  {
  }

  /**
    Every session that returns Ok: the prompt is an untouched prefix of the buffer, generated plus
    observed tokens equal the reported count plus the erased ones, the controller's counters grew by
    the rollbacks of the log, and the log is in the grammar with at most the allowed retries in a row.
   */
  lemma SessionAccounting(cfg: Config, m: Machine, prompt: seq<Token>)
    requires Session(cfg, m, prompt).result.Ok?
    ensures var f := Session(cfg, m, prompt);
            var s := f.result.value;
            && prompt <= f.run.line.tokens && f.run.line.cachePosition == |f.run.line.tokens|
            && s.events == f.run.events && s.finalText == TextOf(f.run.line.tokens[|prompt|..])
            && |f.run.host.streamed| - |m.host.streamed| + Observed(f.run.written)
               == s.totalTokensGenerated + Erased(s.events)
            && s.totalRollbacks == m.rollbackCount + Rollbacks(s.events)
            && s.totalTokensErased == m.totalErased + Erased(s.events)
            && RetriesAfter(s.events).Some? && RetriesAfter(s.events).value <= cfg.maxRollbackRetries
  {
    var line := EvaluateStep(Start(cfg, m, prompt).line, 0, AllButLast(prompt)).line;
    var r := Start(cfg, m, prompt).(line := line);
    StartIsKept(cfg, m, prompt, line);
    LoopKeeps(OriginOf(m, prompt), cfg, r);
    OkIsSummary(cfg, r);
  }

  lemma {:induction false} OkIsSummary(cfg: Config, r: Run)
    requires Loop(cfg, r).result.Ok?
    ensures Loop(cfg, r).result == Summary(Loop(cfg, r).run)
    decreases |r.host.pending|
  {
    if OnePass(cfg, r).verdict.Again? {
      OkIsSummary(cfg, OnePass(cfg, r).run);
    }
  }

  /** The reported total is the number of tokens generated exactly when as many were erased as observed. */
  lemma TotalTokensGeneratedIff(cfg: Config, m: Machine, prompt: seq<Token>)
    requires Session(cfg, m, prompt).result.Ok?
    ensures var f := Session(cfg, m, prompt);
            f.result.value.totalTokensGenerated == |f.run.host.streamed| - |m.host.streamed|
            <==> Observed(f.run.written) == Erased(f.result.value.events)
  {
    SessionAccounting(cfg, m, prompt);
  }

  /**
    A session ends with `MaxRetriesExceeded` exactly when its log ends with a failed execution that
    the maximal number of failed executions precedes since the last success, or when the sandbox itself
    reports that error. The log tells which: it is in the grammar of complete logs only in the second case.
   */
  lemma RetryBudget(cfg: Config, m: Machine, prompt: seq<Token>)
    ensures var f := Session(cfg, m, prompt);
            var over := f.result.Err? && f.result.error.MaxRetriesExceeded?;
            && (BudgetBlown(cfg, f.run.events) <==> over && RetriesAfter(f.run.events).None?)
            && (BudgetBlown(cfg, f.run.events) ==> f.result.error.maxRetries == cfg.maxRollbackRetries)
            && (LeavesBudget(m.host.outcomes) ==> (over <==> BudgetBlown(cfg, f.run.events)))
  {
    var line := EvaluateStep(Start(cfg, m, prompt).line, 0, AllButLast(prompt)).line;
    StartIsKept(cfg, m, prompt, line);
    LoopKeeps(OriginOf(m, prompt), cfg, Start(cfg, m, prompt).(line := line));
  }

  // ------------------------------------------------------------------
  // Coherence of buffer and cache over whole runs
  // ------------------------------------------------------------------

  /** The backend never turns a non-empty text into no tokens. */
  ghost predicate TokenizesToSomething(cfg: Config) {
    forall s: Text :: s != [] && cfg.tokenize(s).Some? ==> cfg.tokenize(s).value != []
  }

  ghost predicate NoSuccess(events: seq<SessionEvent>) {
    forall i :: 0 <= i < |events| ==> !IsSuccess(events[i])
  }

  /** Generation may resume, and holes stem from success observations only. */
  ghost predicate Resumable(r: Run) {
    Coherent(r.line, Holes(r.written)) && (NoSuccess(r.events) ==> Holes(r.written) == {})
  }

  lemma ObservationIsNotEmpty(cfg: Config, r: Run, position: nat, erased: Text, error: Text, exitCode: int)
    requires Observe(cfg.wording, r.history, cfg.prevention, position, erased, error, exitCode).Some?
    ensures Observe(cfg.wording, r.history, cfg.prevention, position, erased, error, exitCode).value.text != []
  {
    assert |cfg.wording.PlainObservation(error, exitCode)| >= |Decimal(exitCode)|;
  }

  lemma FaultIsResumable(cfg: Config, r: Run, e: SessionEvent, position: nat, error: Text, exitCode: int)
    requires TokenizesToSomething(cfg) && Resumable(r)
    ensures var p := OnFault(cfg, r.(events := r.events + [e]), position, error, exitCode);
            !p.verdict.Done? && (p.verdict.Again? ==> Resumable(p.run))
  {
    var r1 := r.(events := r.events + [e]);
    if OnFault(cfg, r1, position, error, exitCode).verdict.Again? {
      var r2, text, obs := FaultAnatomy(cfg, r1, position, error, exitCode);
      RollbackIsResumable(r, e, r2, RollbackTarget(position, r.line.cachePosition), obs);
    }
  }

  lemma RollbackIsResumable(r: Run, e: SessionEvent, r2: Run, target: RollbackTarget, obs: seq<Token>)
    requires Resumable(r) && obs != []
    requires r2.line == r.line && r2.written == r.written && r2.events == r.events + [e]
    requires target.to == r.line.cachePosition && RollbackStep(r.line, target, obs).result.Ok?
    ensures Resumable(OnObservation(r2, target, obs).run)
  {
    RollbackKeepsCoherence(r.line, Holes(r.written), target, obs);
    WriteOnce(r.written, Rewound(target.from, obs));
    var p := OnObservation(r2, target, obs).run;
    HolesNeedSuccess(r, p);
  }

  lemma HolesNeedSuccess(r: Run, p: Run)
    requires Resumable(r)
    requires r.events <= p.events && Holes(p.written) <= Holes(r.written)
    ensures NoSuccess(p.events) ==> Holes(p.written) == {}
  {
    assert forall i :: 0 <= i < |r.events| ==> p.events[i] == r.events[i];
  }

  lemma SuccessIsResumable(cfg: Config, r: Run, e: SessionEvent, stdout: Text)
    requires IsSuccess(e)
    requires Resumable(r) && r.line.promptEnd < |r.line.tokens|
    ensures var p := OnSuccess(cfg, r.(events := r.events + [e]), stdout);
            !p.verdict.Done? && (p.verdict.Again? ==> Resumable(p.run))
  {
    hide Coherent, Holes, Observed, Write, Decoded, Phrases.Success;
    var r1 := r.(events := r.events + [e]);
    var p := OnSuccess(cfg, r1, stdout);
    if p.verdict.Again? {
      var obs := cfg.tokenize(cfg.wording.Success(stdout)).value;
      ObservationLeavesOneHole(r.line, Holes(r.written), obs);
      WriteOnce(r.written, Appended(|r.line.tokens|, obs));
      assert p.run.events[|r.events|] == e;
      assert !NoSuccess(p.run.events);
    }
  }

  lemma InterceptIsResumable(cfg: Config, r: Run, text: Text)
    requires TokenizesToSomething(cfg)
    requires Resumable(r) && r.line.promptEnd < |r.line.tokens|
    ensures var p := Intercept(cfg, r, text);
            !p.verdict.Done? && (p.verdict.Again? ==> Resumable(p.run))
  {
    hide OnSuccess, OnFault, ExtractAction, Coherent, NoSuccess;
    var action := ExtractAction(text, r.line.promptEnd);
    if action.None? {
      HolesNeedSuccess(r, r.(events := r.events + [Warning]));
    } else if r.host.Answer(action.value).Ran? {
      var outcome := r.host.Answer(action.value).outcome;
      var e := ActionExecuted(action.value.actionType, outcome);
      var r' := r.(host := r.host.Answered());
      match outcome
      case Success(stdout) => SuccessIsResumable(cfg, r', e, stdout);
      case Failure(exitCode, stderr, hint) =>
        FaultIsResumable(cfg, r', e, hint.GetOr(action.value.startTokenPos), stderr, exitCode);
      case Timeout(ms) =>
        FaultIsResumable(cfg, r', e, action.value.startTokenPos, cfg.wording.TimeoutError(ms), -1);
    }
  }

  /** A pass that loops back leaves a state in which generation may resume. */
  lemma PassIsResumable(cfg: Config, r: Run)
    requires TokenizesToSomething(cfg) && Resumable(r)
    ensures var p := OnePass(cfg, r);
            && (p.verdict.Again? ==> Resumable(p.run))
            && (p.verdict.Done? ==> AtRest(p.run.line, Holes(p.run.written)))
  {
    hide Intercept, Generate;
    if !r.host.Cancelled() {
      var r', g, k := PassAnatomy(cfg, r);
      GenerateIsCoherent(cfg, r.line, r.host.CancelRead(), cfg.maxTokens, [], Holes(r.written));
      if g.result.Ok? && g.result.value.ActionBoundary? {
        InterceptIsResumable(cfg, r', g.result.value.generatedText);
      }
    }
  }

  // ------------------------------------------------------------------
  // Reachable states
  // ------------------------------------------------------------------

  /** The state in which pass `n` starts, if the run gets that far. */
  function AtPass(cfg: Config, r: Run, n: nat): Option<Run>
    decreases n
  {
    if n == 0 then Some(r)
    else
      var p := OnePass(cfg, r);
      if p.verdict.Again? then AtPass(cfg, p.run, n - 1) else None
  }

  lemma {:induction false} EveryPassIsResumable(cfg: Config, r: Run, n: nat)
    requires TokenizesToSomething(cfg) && Resumable(r)
    ensures var s := AtPass(cfg, r, n);
            s.Some? ==> Resumable(s.value)
    decreases n
  {
    hide OnePass, Coherent;
    if n > 0 {
      PassIsResumable(cfg, r);
      if OnePass(cfg, r).verdict.Again? {
        EveryPassIsResumable(cfg, OnePass(cfg, r).run, n - 1);
      }
    }
  }

  lemma {:induction false} EveryPassIsKept(o: Origin, cfg: Config, r: Run, n: nat)
    requires Kept(o, cfg, r)
    ensures var s := AtPass(cfg, r, n);
            s.Some? ==> Kept(o, cfg, s.value)
    decreases n
  {
    hide OnePass, Accounted, Disciplined, Remembered, BudgetBlown;
    if n > 0 {
      PassKeeps(o, cfg, r);
      if OnePass(cfg, r).verdict.Again? {
        EveryPassIsKept(o, cfg, OnePass(cfg, r).run, n - 1);
      }
    }
  }

  lemma {:induction false} LoopIsAtRest(cfg: Config, r: Run)
    requires TokenizesToSomething(cfg) && Resumable(r)
    ensures var f := Loop(cfg, r);
            f.result.Ok? ==> AtRest(f.run.line, Holes(f.run.written))
    decreases |r.host.pending|
  {
    hide OnePass, Coherent, AtRest;
    PassIsResumable(cfg, r);
    if OnePass(cfg, r).verdict.Again? {
      LoopIsAtRest(cfg, OnePass(cfg, r).run);
    }
  }

  /** The state after prefilling a prompt into an empty cache. */
  function Prefill(cfg: Config, m: Machine, prompt: seq<Token>): Run {
    var r := Start(cfg, m, prompt);
    r.(line := EvaluateStep(r.line, 0, AllButLast(prompt)).line)
  }

  predicate PrefillSucceeds(m: Machine, prompt: seq<Token>) {
    |prompt| >= 2 ==> NextCallSucceeds(m.ffi)
  }

  lemma PrefillIsResumable(cfg: Config, m: Machine, prompt: seq<Token>)
    requires m.cells == map[] && PrefillSucceeds(m, prompt)
    ensures Resumable(Prefill(cfg, m, prompt))
    ensures Session(cfg, m, prompt) == Loop(cfg, Prefill(cfg, m, prompt))
  {
    hide Loop;
    var r := Prefill(cfg, m, prompt);
    assert r.line.cells == Prefilled(prompt);
    PrefillIsCoherent(r.line);
  }

  /**
    Safety over whole runs: from an empty cache, every pass of every session starts with a cache that
    holds exactly the tokens of the buffer but the last one and the holes, and the result leaves it so.
    Before any action has succeeded there are no holes, and the cache is the very one that prefilling
    the current buffer into an empty cache would give.
   */
  lemma SessionIsCoherent(cfg: Config, m: Machine, prompt: seq<Token>, n: nat)
    requires TokenizesToSomething(cfg) && m.cells == map[]
    ensures var s := AtPass(cfg, Prefill(cfg, m, prompt), n);
            PrefillSucceeds(m, prompt) && s.Some? ==>
              && Coherent(s.value.line, Holes(s.value.written))
              && (NoSuccess(s.value.events) ==>
                    Holes(s.value.written) == {} && s.value.line.cells == Prefilled(s.value.line.tokens))
    ensures var f := Session(cfg, m, prompt);
            f.result.Ok? ==> AtRest(f.run.line, Holes(f.run.written))
  {
    hide AtRest, Loop;
    if PrefillSucceeds(m, prompt) {
      var r := Prefill(cfg, m, prompt);
      PrefillIsResumable(cfg, m, prompt);
      EveryPassIsResumable(cfg, r, n);
      LoopIsAtRest(cfg, r);
      var s := AtPass(cfg, r, n);
      if s.Some? && NoSuccess(s.value.events) {
        PrefilledMinusHoles(s.value.line.tokens, s.value.line.cells, {});
      }
    }
  }

  /**
    At every pass of every session the prompt is untouched, all tokens are accounted for, the log is in
    the grammar within the retry budget, and the failure history is the replay of the faults.
   */
  lemma SessionIsKept(cfg: Config, m: Machine, prompt: seq<Token>, n: nat)
    ensures var s := AtPass(cfg, Prefill(cfg, m, prompt), n);
            s.Some? ==>
              && Accounted(OriginOf(m, prompt), s.value)
              && Disciplined(cfg, s.value)
              && Remembered(cfg, s.value)
  {
    var r := Prefill(cfg, m, prompt);
    StartIsKept(cfg, m, prompt, r.line);
    EveryPassIsKept(OriginOf(m, prompt), cfg, r, n);
  }
}
