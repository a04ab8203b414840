/** The cache length that the manager tracks on the side, and which rollbacks it lets pass. */
module CacheLead {
  import opened Wrappers
  import opened Texts
  import opened ActionParser
  import opened KvCache
  import opened FailureHistory
  import opened Engine
  import opened SessionProperties
  import opened Reactions
  import opened OneTokenSessions

  // ------------------------------------------------------------------
  // The lead of the tracked length over the buffer
  // ------------------------------------------------------------------

  /** The tokens appended by success observations; the tracked length does not count them. */
  function AppendedTokens(written: seq<Writing>): nat {
    if written == [] then 0
    else
      var w := written[|written| - 1];
      AppendedTokens(written[..|written| - 1]) + if w.Appended? then |w.obs| else 0
  }

  /** The rollbacks with two or more observation tokens; each is tracked one token short. */
  function WideRollbacks(written: seq<Writing>): nat {
    if written == [] then 0
    else
      var w := written[|written| - 1];
      WideRollbacks(written[..|written| - 1]) + if w.Rewound? && |w.obs| >= 2 then 1 else 0
  }

  lemma CountOnce(written: seq<Writing>, w: Writing)
    ensures AppendedTokens(written + [w]) == AppendedTokens(written) + if w.Appended? then |w.obs| else 0
    ensures WideRollbacks(written + [w]) == WideRollbacks(written) + if w.Rewound? && |w.obs| >= 2 then 1 else 0
  {
    assert (written + [w])[..|written|] == written;
  }

  /** What a session has used up of the lead that the cache manager had over the prompt. */
  function Spent(streamed: nat, r: Run): int {
    |r.host.streamed| - streamed + AppendedTokens(r.written) + WideRollbacks(r.written)
  }

  /** The lead is what it was when the session started, with `streamed` texts out, minus what was spent. */
  ghost predicate LeadAccounted(lead: int, streamed: nat, r: Run) {
    && r.line.cachePosition == |r.line.tokens|
    && r.line.tracked.Some?
    && r.line.tracked.value - |r.line.tokens| == lead - Spent(streamed, r)
  }

  lemma GeneratingSpends(lead: int, streamed: nat, r: Run, k: nat, g: Run)
    requires LeadAccounted(lead, streamed, r) && Generates(r, k, g)
    ensures LeadAccounted(lead, streamed, g)
  {
  }

  lemma ReactionSpends(lead: int, streamed: nat, g: Run, x: Reaction, t: Run)
    requires LeadAccounted(lead, streamed, g) && Reacts(g, x, t)
    ensures LeadAccounted(lead, streamed, t)
  {
    hide RollbackStep, AppendedTokens, WideRollbacks;
    match x
    case Warned =>
    case Continued(_, obs) => CountOnce(g.written, Appended(|g.line.tokens|, obs));
    case Resumed(_, from, obs, _) =>
      CountOnce(g.written, Rewound(from, obs));
      RollbackLead(g.line, RollbackTarget(from, |g.line.tokens|), obs);
      RollbackBuffer(g.line, RollbackTarget(from, |g.line.tokens|), obs);
  }

  lemma {:induction false} LeadFrom(lead: int, streamed: nat, cfg: Config, r: Run, n: nat)
    requires LeadAccounted(lead, streamed, r)
    ensures var s := AtPass(cfg, r, n);
            s.Some? ==> LeadAccounted(lead, streamed, s.value)
    decreases n
  {
    hide OnePass, LeadAccounted, Generates, Reacts;
    if n > 0 && OnePass(cfg, r).verdict.Again? {
      assert r.line.cachePosition == |r.line.tokens| by {
        LeadIsPositioned(lead, streamed, r);
      }
      var g, k, x := LoopingPass(cfg, r);
      GeneratingSpends(lead, streamed, r, k, g);
      ReactionSpends(lead, streamed, g, x, OnePass(cfg, r).run);
      LeadFrom(lead, streamed, cfg, OnePass(cfg, r).run, n - 1);
    }
  }

  lemma LeadIsPositioned(lead: int, streamed: nat, r: Run)
    requires LeadAccounted(lead, streamed, r)
    ensures r.line.cachePosition == |r.line.tokens|
  {
  }

  /**
    At every pass the tracked length leads the buffer by what it led the prompt at the start, minus the
    tokens generated, minus those appended by success observations, minus the rollbacks with two or more
    observation tokens. Nothing ever adds to the lead.
   */
  lemma LeadAtEveryPass(cfg: Config, m: Machine, prompt: seq<Token>, n: nat)
    requires m.tracked.Some?
    ensures var s := AtPass(cfg, Prefill(cfg, m, prompt), n);
            s.Some? ==>
              && s.value.line.tracked.Some?
              && s.value.line.tracked.value - |s.value.line.tokens|
                 == m.tracked.value - |prompt|
                    - (|s.value.host.streamed| - |m.host.streamed|)
                    - AppendedTokens(s.value.written) - WideRollbacks(s.value.written)
  {
    hide AtPass;
    LeadFrom(m.tracked.value - |prompt|, |m.host.streamed|, cfg, Prefill(cfg, m, prompt), n);
  }

  // ------------------------------------------------------------------
  // Which rollbacks pass the bounds check
  // ------------------------------------------------------------------

  /** The fault is within the budget and leads to a rollback attempt with the observation `obs`. */
  predicate Attempts(cfg: Config, r: Run, position: nat, error: Text, exitCode: int, obs: seq<Token>) {
    && r.retry < cfg.maxRollbackRetries && position < |r.line.tokens|
    && var erased := TextOf(r.line.tokens[position..|r.line.tokens|]);
       var built := Observe(cfg.wording, r.history, cfg.prevention, position, erased, error, exitCode);
       built.Some? && cfg.tokenize(built.value.text) == Some(obs)
  }

  lemma AttemptedFault(cfg: Config, r: Run, position: nat, error: Text, exitCode: int, obs: seq<Token>)
    requires r.line.cachePosition == |r.line.tokens|
    requires Attempts(cfg, r, position, error, exitCode, obs)
    ensures var v := OnFault(cfg, r, position, error, exitCode).verdict;
            match RollbackStep(r.line, RollbackTarget(position, |r.line.tokens|), obs).result
            case Ok(_) => v == Again
            case Err(e) => v == Failed(e)
            case Panic => v == Panicked
  {
    hide RollbackStep, Observe, MakeRecord, TextOf;
  }

  /**
    A fault that leads to a rollback attempt is refused by the bounds check if and only if more was
    spent than the cache manager led the prompt by. It rolls back if and only if it is not refused, lies
    behind the prompt, and the native calls succeed.
   */
  lemma FaultPassesBoundsIff(lead: int, streamed: nat, cfg: Config, r: Run, position: nat,
                             error: Text, exitCode: int, obs: seq<Token>)
    requires LeadAccounted(lead, streamed, r)
    requires Attempts(cfg, r, position, error, exitCode, obs)
    ensures var v := OnFault(cfg, r, position, error, exitCode).verdict;
            && (v.Failed? && v.error.RollbackOutOfBounds? <==> Spent(streamed, r) > lead)
            && (v.Again? <==>
                  && Spent(streamed, r) <= lead && r.line.promptEnd <= position
                  && NextCallSucceeds(r.line.ffi) && (|obs| >= 2 ==> NextCallSucceeds(Later(r.line.ffi))))
  {
    hide OnFault, Spent, Observe, TextOf, Write, Erase;
    AttemptedFault(cfg, r, position, error, exitCode, obs);
    RollbackSucceedsIff(r.line, RollbackTarget(position, |r.line.tokens|), obs);
  }

  /** The run `r` is about to react to a failed execution with a rollback attempt. */
  ghost predicate Fails(cfg: Config, r: Run, text: Text, p: ActionPayload, outcome: ExecutionOutcome, obs: seq<Token>) {
    && ExtractAction(text, r.line.promptEnd) == Some(p)
    && r.host.Answer(p) == Ran(outcome) && !outcome.Success?
    && Attempts(cfg, r, FaultPosition(p, outcome), FaultError(cfg, outcome), FaultCode(outcome), obs)
  }

  lemma FailedInterceptIff(lead: int, streamed: nat, cfg: Config, r: Run, text: Text, p: ActionPayload,
                           outcome: ExecutionOutcome, obs: seq<Token>)
    requires LeadAccounted(lead, streamed, r) && Fails(cfg, r, text, p, outcome, obs)
    ensures var v := Intercept(cfg, r, text).verdict;
            && (v.Failed? && v.error.RollbackOutOfBounds? <==> Spent(streamed, r) > lead)
            && (v.Again? <==>
                  && Spent(streamed, r) <= lead && r.line.promptEnd <= FaultPosition(p, outcome)
                  && NextCallSucceeds(r.line.ffi) && (|obs| >= 2 ==> NextCallSucceeds(Later(r.line.ffi))))
  {
    hide OnFault, ExtractAction, Observe, TextOf, Phrases.TimeoutError;
    var r' := r.(host := r.host.Answered(), events := r.events + [ActionExecuted(p.actionType, outcome)]);
    var position, error, exitCode := FaultPosition(p, outcome), FaultError(cfg, outcome), FaultCode(outcome);
    assert Attempts(cfg, r', position, error, exitCode, obs) && LeadAccounted(lead, streamed, r');
    FaultPassesBoundsIff(lead, streamed, cfg, r', position, error, exitCode, obs);
  }

  /**
    In any pass of any session, a failed execution that leads to a rollback attempt passes the bounds
    check if and only if the count the cache manager started with covers the prompt, the tokens
    generated, the tokens of success observations and one token per earlier wide rollback.
   */
  lemma SessionRollsBackIff(cfg: Config, m: Machine, prompt: seq<Token>, n: nat, text: Text,
                            p: ActionPayload, outcome: ExecutionOutcome, obs: seq<Token>)
    requires m.tracked.Some?
    ensures var s := AtPass(cfg, Prefill(cfg, m, prompt), n);
            s.Some? && !s.value.host.Cancelled() ==>
              var stop := Generate(cfg, s.value.line, s.value.host.CancelRead(), cfg.maxTokens, []);
              var r := s.value.(line := stop.line, host := stop.host, passes := s.value.passes + 1);
              stop.result == Ok(ActionBoundary(text)) && Fails(cfg, r, text, p, outcome, obs) ==>
                var v := OnePass(cfg, s.value).verdict;
                var covered := |prompt| + (|r.host.streamed| - |m.host.streamed|) + AppendedTokens(r.written)
                               + WideRollbacks(r.written) <= m.tracked.value;
                && (v.Failed? && v.error.RollbackOutOfBounds? <==> !covered)
                && (v.Again? <==>
                      && covered && r.line.promptEnd <= FaultPosition(p, outcome)
                      && NextCallSucceeds(r.line.ffi) && (|obs| >= 2 ==> NextCallSucceeds(Later(r.line.ffi))))
  {
    hide AtPass, Generate, Intercept, Fails, OnePass;
    var lead := m.tracked.value - |prompt|;
    LeadFrom(lead, |m.host.streamed|, cfg, Prefill(cfg, m, prompt), n);
    var s := AtPass(cfg, Prefill(cfg, m, prompt), n);
    if s.Some? && !s.value.host.Cancelled() {
      var r, stop, k := PassAnatomy(cfg, s.value);
      GeneratingSpends(lead, |m.host.streamed|, s.value, k, r);
      if stop.result == Ok(ActionBoundary(text)) && Fails(cfg, r, text, p, outcome, obs) {
        FailedInterceptIff(lead, |m.host.streamed|, cfg, r, text, p, outcome, obs);
      }
    }
  }

  // ------------------------------------------------------------------
  // Sessions that never roll back
  // ------------------------------------------------------------------

  /** The cache manager counts fewer positions than the buffer has, so no rollback passes its check. */
  predicate IsCold(r: Run) {
    r.line.cachePosition == |r.line.tokens| && r.line.SeqLen() < |r.line.tokens|
  }

  lemma FaultWhenCold(cfg: Config, r: Run, position: nat, error: Text, exitCode: int)
    requires IsCold(r)
    ensures var p := OnFault(cfg, r, position, error, exitCode);
            && !p.verdict.Again?
            && p.run.rollbackCount == r.rollbackCount && Rollbacks(p.run.events) == Rollbacks(r.events)
  {
    hide Observe, MakeRecord, TextOf, Rollbacks;
    var n := r.line.cachePosition;
    forall target: RollbackTarget, obs | target.to == n
      ensures !RollbackStep(r.line, target, obs).result.Ok?
    {
      RollbackSucceedsIff(r.line, target, obs);
    }
  }

  lemma InterceptWhenCold(cfg: Config, r: Run, text: Text)
    requires IsCold(r)
    ensures var p := Intercept(cfg, r, text);
            && (p.verdict.Again? ==> IsCold(p.run))
            && p.run.rollbackCount == r.rollbackCount && Rollbacks(p.run.events) == Rollbacks(r.events)
  {
    hide ExtractAction, OnFault, OnSuccess;
    var action := ExtractAction(text, r.line.promptEnd);
    if action.None? {
      AppendEvent(r.events, Warning);
    } else if r.host.Answer(action.value).Ran? {
      var p := action.value;
      var outcome := r.host.Answer(p).outcome;
      var e := ActionExecuted(p.actionType, outcome);
      var r1 := r.(host := r.host.Answered(), events := r.events + [e]);
      AppendEvent(r.events, e);
      match outcome
      case Success(stdout) => SuccessWhenCold(cfg, r1, stdout);
      case Failure(exitCode, stderr, hint) => FaultWhenCold(cfg, r1, hint.GetOr(p.startTokenPos), stderr, exitCode);
      case Timeout(ms) => FaultWhenCold(cfg, r1, p.startTokenPos, cfg.wording.TimeoutError(ms), -1);
    }
  }

  lemma SuccessWhenCold(cfg: Config, r: Run, stdout: Text)
    requires IsCold(r)
    ensures var p := OnSuccess(cfg, r, stdout);
            && IsCold(p.run)
            && p.run.rollbackCount == r.rollbackCount && p.run.events == r.events
  {
  }

  /** A pass that starts without a lead loses it to the first token it generates. */
  lemma PassWithoutLead(cfg: Config, r: Run)
    requires r.line.SeqLen() <= |r.line.tokens| == r.line.cachePosition
    ensures var p := OnePass(cfg, r);
            && (p.verdict.Again? ==> IsCold(p.run))
            && p.run.rollbackCount == r.rollbackCount && Rollbacks(p.run.events) == Rollbacks(r.events)
  {
    hide Intercept, Generate, Rollbacks;
    if !r.host.Cancelled() {
      var r', g, k := PassAnatomy(cfg, r);
      if g.result.Ok? && g.result.value.ActionBoundary? {
        InterceptWhenCold(cfg, r', g.result.value.generatedText);
      }
    }
  }

  lemma {:induction false} LoopWithoutLead(cfg: Config, r: Run)
    requires r.line.SeqLen() <= |r.line.tokens| == r.line.cachePosition
    ensures var f := Loop(cfg, r);
            f.run.rollbackCount == r.rollbackCount && Rollbacks(f.run.events) == Rollbacks(r.events)
    decreases |r.host.pending|
  {
    hide OnePass, Rollbacks;
    PassWithoutLead(cfg, r);
    if OnePass(cfg, r).verdict.Again? {
      LoopWithoutLead(cfg, OnePass(cfg, r).run);
    }
  }

  lemma {:induction false} NoRollbackNoFault(events: seq<SessionEvent>, i: nat)
    requires RetriesAfter(events).Some? && Rollbacks(events) == 0 && i < |events|
    ensures !IsFault(events[i])
    decreases |events|
  {
    var n := |events|;
    if i < n - 1 {
      NoRollbackNoFault(events[..n - 1], i);
    }
  }

  /**
    A cache manager created with a count of at most the prompt length never rolls back: neither with the
    initial position 0 of the documented set-up nor with the length of the prompt. A session that
    returns Ok then contains no failed action.
   */
  lemma ColdCacheNeverRollsBack(cfg: Config, m: Machine, prompt: seq<Token>, i: nat)
    requires m.tracked.GetOr(0) <= |prompt|
    ensures var f := Session(cfg, m, prompt);
            && f.run.rollbackCount == m.rollbackCount && Rollbacks(f.run.events) == 0
            && (f.result.Ok? && i < |f.run.events| ==> !IsFault(f.run.events[i]))
  {
    var r := Prefill(cfg, m, prompt);
    StartIsKept(cfg, m, prompt, r.line);
    LoopKeeps(OriginOf(m, prompt), cfg, r);
    LoopWithoutLead(cfg, r);
    var f := Session(cfg, m, prompt);
    if f.result.Ok? && i < |f.run.events| {
      NoRollbackNoFault(f.run.events, i);
    }
  }

  // ------------------------------------------------------------------
  // Sessions that do
  // ------------------------------------------------------------------

  /** The configuration puts nothing in the way of a first rollback. */
  ghost predicate Permits(cfg: Config) {
    && cfg.stopSequences == DEFAULT_STOPS && cfg.maxTokens >= 1 && cfg.maxRollbackRetries >= 1
    && (cfg.prevention.enabled ==> cfg.prevention.maxHistoryPerPosition >= 1)
    && forall s: Text :: cfg.tokenize(s).Some?
  }

  /** The model writes the smallest action, the sandbox fails it, and one lead suffices to roll it back. */
  lemma WarmCacheRollsBack(cfg: Config, tracked: nat, prompt: seq<Token>)
    requires Permits(cfg) && prompt != [] && tracked > |prompt|
    ensures var f := Session(cfg, OneTokenMachine(Some(tracked), SMALLEST, Fail()), prompt);
            f.result.Ok? && Rollbacks(f.run.events) == 1
  {
    hide MatchedStop, ExtractAction, Session, OnFault, Trim, Loop, Rollbacks;
    SmallestIsAction(|prompt|);
    var p := ExtractAction(SMALLEST.text, |prompt|).value;
    var g := OneTokenSession(cfg, Some(tracked), prompt, SMALLEST, Fail(), p);
    var e := ActionExecuted(p.actionType, Failure(1, [], Some(p.startTokenPos)));
    var r := g.(host := g.host.Answered(), events := g.events + [e]);
    FirstFaultRollsBack(cfg, r, |prompt|, [], 1);
    var t := OnFault(cfg, r, |prompt|, [], 1).run;
    SilentModelEnds(cfg, t);
    OneRollback(e, Rollback(|prompt|, 1, 1));
    assert t.events == [e] + [Rollback(|prompt|, 1, 1)];
  }

  lemma OneRollback(e: SessionEvent, b: SessionEvent)
    requires e.ActionExecuted? && b.Rollback?
    ensures Rollbacks([e] + [b]) == 1
  {
    AppendEvent([e], b);
    AppendEvent([], e);
    assert [] + [e] == [e];
  }

  lemma FirstFaultRollsBack(cfg: Config, r: Run, position: nat, error: Text, exitCode: int)
    requires Permits(cfg) && r.retry == 0 && r.line.ffi == []
    requires r.history == if cfg.prevention.enabled then Some(map[]) else None
    requires r.line.cachePosition == |r.line.tokens| <= r.line.SeqLen()
    requires r.line.promptEnd <= position < |r.line.tokens|
    ensures var p := OnFault(cfg, r, position, error, exitCode);
            && p.verdict.Again?
            && p.run.host == r.host && p.run.line.ffi == [] && p.run.line.promptEnd == r.line.promptEnd
            && r.line.promptEnd <= |p.run.line.tokens| && (position > 0 ==> p.run.line.tokens != [])
            && p.run.events == r.events + [Rollback(position, |r.line.tokens| - position, 1)]
  {
    hide TextOf, MakeRecord, RollbackStep;
    var erased := TextOf(r.line.tokens[position..|r.line.tokens|]);
    if cfg.prevention.enabled {
      PanicsIffCapIsZero(cfg.wording, [], cfg.prevention, position, erased, error, exitCode);
    }
    var built := Observe(cfg.wording, r.history, cfg.prevention, position, erased, error, exitCode).value;
    var obs := cfg.tokenize(built.text).value;
    var target := RollbackTarget(position, |r.line.tokens|);
    RollbackSucceedsIff(r.line, target, obs);
    RollbackBuffer(r.line, target, obs);
    RollbackUsesAnswers(r.line, target, obs);
    assert RollbackStep(r.line, target, obs).result == Ok(|r.line.tokens| - position);
  }

  lemma RollbackUsesAnswers(l: Line, target: RollbackTarget, obs: seq<Token>)
    requires l.ffi == []
    ensures RollbackStep(l, target, obs).line.ffi == []
  {
    hide Write, Erase;
  }

  /**
    Whether a session can roll back at all is decided by the count the cache manager was created with:
    some session does if and only if the count exceeds the length of the prompt.
   */
  lemma SomeSessionRollsBackIff(cfg: Config, tracked: Option<nat>, prompt: seq<Token>)
    requires Permits(cfg) && prompt != []
    ensures (exists m: Machine :: m.tracked == tracked && Rollbacks(Session(cfg, m, prompt).run.events) > 0)
            <==> tracked.GetOr(0) > |prompt|
  {
    hide Session, Rollbacks, Permits;
    if tracked.GetOr(0) > |prompt| {
      WarmCacheRollsBack(cfg, tracked.value, prompt);
    } else {
      forall m: Machine | m.tracked == tracked
        ensures Rollbacks(Session(cfg, m, prompt).run.events) == 0
      {
        ColdCacheNeverRollsBack(cfg, m, prompt, 0);
      }
    }
  }
}
