/**
  What a pass that loops back has done: generate, then warn, append an observation, or roll back. The
  properties of observations over whole sessions start from this description.
 */
module Reactions {
  import opened Wrappers
  import opened Texts
  import opened ActionParser
  import opened KvCache
  import opened FailureHistory
  import opened Engine
  import opened SessionProperties

  /** The reaction to an intercepted text that lets the session go on. */
  datatype Reaction =
    | Warned
    | Continued(executed: SessionEvent, obs: seq<Token>)
    | Resumed(executed: SessionEvent, from: nat, obs: seq<Token>, record: FailureRecord)

  /** `g` is the run `r` after generating `k` more tokens. */
  ghost predicate Generates(r: Run, k: nat, g: Run) {
    && g == r.(line := g.line, host := g.host, passes := r.passes + 1)
    && k <= |r.host.pending|
    && g.host.pending == r.host.pending[k..]
    && g.host.outcomes == r.host.outcomes
    && g.host.streamed == r.host.streamed + TextsOf(r.host.pending[..k])
    && g.line.tokens == r.line.tokens + r.host.pending[..k]
    && g.line.cachePosition == |g.line.tokens|
    && g.line.promptEnd == r.line.promptEnd && g.line.tracked == r.line.tracked
  }

  /** `t` is the run after the reaction `x`. */
  ghost predicate Reacts(g: Run, x: Reaction, t: Run) {
    var n := |g.line.tokens|;
    match x
    case Warned => t == g.(events := g.events + [Warning])
    case Continued(e, obs) =>
      && IsSuccess(e)
      && t == g.(line := t.line, host := g.host.Answered(), retry := 0, events := g.events + [e],
                 written := g.written + [Appended(n, obs)])
      && t.line.tokens == g.line.tokens + obs && t.line.cachePosition == |t.line.tokens|
      && t.line.promptEnd == g.line.promptEnd && t.line.tracked == g.line.tracked
    case Resumed(e, from, obs, record) =>
      && IsFault(e)
      && from < n && RollbackStep(g.line, RollbackTarget(from, n), obs).result.Ok?
      && t == g.(line := RollbackStep(g.line, RollbackTarget(from, n), obs).line, host := g.host.Answered(),
                 retry := g.retry + 1, events := g.events + [e] + [Rollback(from, n - from, g.retry + 1)],
                 rollbackCount := g.rollbackCount + 1, totalErased := g.totalErased + (n - from),
                 history := t.history, written := g.written + [Rewound(from, obs)],
                 faults := g.faults + [Fault(from, record)])
  }

  /** Where a failed execution rolls back to, and what it reports. */
  function FaultPosition(p: ActionPayload, outcome: ExecutionOutcome): nat {
    if outcome.Failure? then outcome.errorTokenHint.GetOr(p.startTokenPos) else p.startTokenPos
  }

  function FaultError(cfg: Config, outcome: ExecutionOutcome): Text
    requires !outcome.Success?
  {
    if outcome.Failure? then outcome.stderr else cfg.wording.TimeoutError(outcome.timeoutMs)
  }

  function FaultCode(outcome: ExecutionOutcome): int {
    if outcome.Failure? then outcome.exitCode else -1
  }

  /**
    How the reaction `x` in the run `g` follows from the answer to the action `p`: the log quotes the
    answer, a success observation is the tokenized output, and a failure is recorded and observed with
    its code, its error, and the text that the rollback erases.
   */
  ghost predicate Explains(cfg: Config, g: Run, p: ActionPayload, x: Reaction) {
    var a := g.host.Answer(p);
    match x
    case Warned => false
    case Continued(e, obs) =>
      && a.Ran? && a.outcome.Success?
      && e == ActionExecuted(p.actionType, a.outcome)
      && cfg.tokenize(cfg.wording.Success(a.outcome.stdout)) == Some(obs)
    case Resumed(e, from, obs, record) =>
      && a.Ran? && !a.outcome.Success?
      && e == ActionExecuted(p.actionType, a.outcome)
      && from == FaultPosition(p, a.outcome) && from <= |g.line.tokens|
      && FailureShown(cfg, g, from, FaultError(cfg, a.outcome), FaultCode(a.outcome), obs, record)
  }

  /** The failure is recorded as `record` and observed as `obs`. */
  ghost predicate FailureShown(cfg: Config, g: Run, from: nat, error: Text, exitCode: int,
                               obs: seq<Token>, record: FailureRecord)
    requires from <= |g.line.tokens|
  {
    var erased := TextOf(g.line.tokens[from..]);
    var built := Observe(cfg.wording, g.history, cfg.prevention, from, erased, error, exitCode);
    && record == FailureRecord(TruncateTail(erased, cfg.prevention.maxErasedContentBytes),
                               TruncateTail(error, cfg.prevention.maxErrorMessageBytes), exitCode)
    && built.Some? && cfg.tokenize(built.value.text) == Some(obs)
  }

  lemma FaultReacts(cfg: Config, r: Run, e: SessionEvent, position: nat, error: Text, exitCode: int)
    returns (x: Reaction)
    requires IsFault(e) && r.line.cachePosition == |r.line.tokens|
    requires var r1 := r.(events := r.events + [e], host := r.host.Answered());
             OnFault(cfg, r1, position, error, exitCode).verdict.Again?
    ensures var r1 := r.(events := r.events + [e], host := r.host.Answered());
            Reacts(r, x, OnFault(cfg, r1, position, error, exitCode).run)
    ensures x.Resumed? && x.from == position <= |r.line.tokens| && x.executed == e
    ensures FailureShown(cfg, r, position, error, exitCode, x.obs, x.record)
  {
    hide RollbackStep, TruncateTail, TextOf, Observe;
    assert r.line.tokens[position..|r.line.tokens|] == r.line.tokens[position..];
    var erased := TextOf(r.line.tokens[position..]);
    var built := Observe(cfg.wording, r.history, cfg.prevention, position, erased, error, exitCode).value;
    var obs := cfg.tokenize(built.text).value;
    x := Resumed(e, position, obs, MakeRecord(cfg.prevention, erased, error, exitCode));
    RollbackBuffer(r.line, RollbackTarget(position, |r.line.tokens|), obs);
  }

  lemma SuccessReacts(cfg: Config, r: Run, e: SessionEvent, stdout: Text) returns (x: Reaction)
    requires IsSuccess(e) && r.line.cachePosition == |r.line.tokens|
    requires OnSuccess(cfg, r.(events := r.events + [e], host := r.host.Answered()), stdout).verdict.Again?
    ensures Reacts(r, x, OnSuccess(cfg, r.(events := r.events + [e], host := r.host.Answered()), stdout).run)
    ensures x.Continued? && x.executed == e && cfg.tokenize(cfg.wording.Success(stdout)) == Some(x.obs)
  {
    hide Phrases.Success, Write;
    x := Continued(e, cfg.tokenize(cfg.wording.Success(stdout)).value);
  }

  lemma InterceptReacts(cfg: Config, r: Run, text: Text) returns (x: Reaction)
    requires r.line.cachePosition == |r.line.tokens|
    requires Intercept(cfg, r, text).verdict.Again?
    ensures Reacts(r, x, Intercept(cfg, r, text).run)
    ensures x.Warned? <==> ExtractAction(text, r.line.promptEnd).None?
    ensures !x.Warned? ==> Explains(cfg, r, ExtractAction(text, r.line.promptEnd).value, x)
  {
    hide OnSuccess, OnFault, ExtractAction, RollbackStep, FailureShown;
    var action := ExtractAction(text, r.line.promptEnd);
    if action.None? {
      x := Warned;
    } else {
      var p := action.value;
      var outcome := r.host.Answer(p).outcome;
      var e := ActionExecuted(p.actionType, outcome);
      match outcome
      case Success(stdout) => x := SuccessReacts(cfg, r, e, stdout);
      case Failure(exitCode, stderr, hint) =>
        x := FaultReacts(cfg, r, e, hint.GetOr(p.startTokenPos), stderr, exitCode);
      case Timeout(ms) =>
        x := FaultReacts(cfg, r, e, p.startTokenPos, cfg.wording.TimeoutError(ms), -1);
    }
  }

  /** The text that the pass from `r` to `g` added to the buffer. */
  function PassText(r: Run, g: Run): Text
    requires |r.line.tokens| <= |g.line.tokens|
  {
    TextOf(g.line.tokens[|r.line.tokens|..])
  }

  /**
    Every pass that loops back generates at least one token and then reacts in one of the three ways: a
    warning if the text it added holds no action, and otherwise what the answer to that action calls for.
   */
  lemma LoopingPass(cfg: Config, r: Run) returns (g: Run, k: nat, x: Reaction)
    requires r.line.cachePosition == |r.line.tokens|
    requires OnePass(cfg, r).verdict.Again?
    ensures Generates(r, k, g) && k >= 1
    ensures Reacts(g, x, OnePass(cfg, r).run)
    ensures var action := ExtractAction(PassText(r, g), r.line.promptEnd);
            && (x.Warned? <==> action.None?)
            && (!x.Warned? ==> Explains(cfg, g, action.value, x))
    ensures OnePass(cfg, r).run.line.cachePosition == |OnePass(cfg, r).run.line.tokens|
  {
    hide Intercept, Generate, ExtractAction, RollbackStep, Explains, TextOf;
    var stop;
    g, stop, k := PassAnatomy(cfg, r);
    var text := stop.result.value.generatedText;
    x := InterceptReacts(cfg, g, text);
    assert g.line.tokens[|r.line.tokens|..] == r.host.pending[..k];
    assert [] + TextOf(r.host.pending[..k]) == TextOf(r.host.pending[..k]);
    if x.Resumed? {
      RollbackBuffer(g.line, RollbackTarget(x.from, |g.line.tokens|), x.obs);
    }
  }

  /** Why an intercepted text ends the session with an error, and with which one. */
  lemma InterceptFails(cfg: Config, r: Run, text: Text)
    requires Intercept(cfg, r, text).verdict.Failed? && r.line.cachePosition == |r.line.tokens|
    ensures var e, n := Intercept(cfg, r, text).verdict.error, |r.line.tokens|;
            var action := ExtractAction(text, r.line.promptEnd);
            && action.Some?
            && match r.host.Answer(action.value)
               case NotRun(error) => e == error
               case Ran(Success(_)) => e == BackendError(TokenizationFailed) || e == BackendError(DecodeFailed)
               case Ran(_) =>
                 if r.retry >= cfg.maxRollbackRetries then e == MaxRetriesExceeded(cfg.maxRollbackRetries)
                 else
                   || e == BackendError(TokenizationFailed)
                   || (e == RollbackOutOfBounds(n, r.line.SeqLen()) && r.line.SeqLen() < n)
                   || (e.KvCacheError? && !e.cause.DecodeFailed? && !e.cause.EmptyState?)
  {
    hide ExtractAction, Observe, MakeRecord, TextOf, Write, Erase, Decoded, Phrases.Success;
  }
}
