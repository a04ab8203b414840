/** Where a rollback lands: soundness and precision of the anchor, absence of panics, number of passes. */
module AnchorProperties {
  import opened Wrappers
  import opened Texts
  import opened ActionParser
  import opened KvCache
  import opened FailureHistory
  import opened Engine
  import opened SessionProperties

  // ------------------------------------------------------------------
  // Anchors
  // ------------------------------------------------------------------

  /** Every token decodes to at most one byte, so byte offsets never exceed token offsets. */
  predicate AtMostOneByte(tokens: seq<Token>) {
    forall i :: 0 <= i < |tokens| ==> |tokens[i].text| <= 1
  }

  predicate OneByteEach(tokens: seq<Token>) {
    forall i :: 0 <= i < |tokens| ==> |tokens[i].text| == 1
  }

  lemma {:induction false} TextIsNoLonger(tokens: seq<Token>)
    requires AtMostOneByte(tokens)
    ensures |TextOf(tokens)| <= |tokens|
    ensures OneByteEach(tokens) ==> |TextOf(tokens)| == |tokens|
  {
    if tokens != [] {
      TextIsNoLonger(tokens[..|tokens| - 1]);
    }
  }

  /** The bytes from offset `off` on lie within the tokens from index `off` on. */
  lemma SuffixIsCovered(tokens: seq<Token>, off: nat)
    requires AtMostOneByte(tokens) && off <= |TextOf(tokens)|
    ensures off <= |tokens|
    ensures EndsWith(TextOf(tokens[off..]), TextOf(tokens)[off..])
    ensures OneByteEach(tokens) ==> TextOf(tokens[off..]) == TextOf(tokens)[off..]
  {
    hide TextOf;
    TextIsNoLonger(tokens);
    var a, b := tokens[..off], tokens[off..];
    assert tokens == a + b;
    TextOfConcat(a, b);
    TextIsNoLonger(a);
    var cut := off - |TextOf(a)|;
    assert TextOf(tokens)[off..] == TextOf(b)[cut..];
  }

  /**
    The anchor of an intercepted action. `start` is the index at which this pass began and
    `tokens[start..]` is what it generated. The anchor is a generated token of the buffer, the text
    erased from it on ends with the whole action block, and with one-byte tokens it is the very token
    that opens the block exactly when the pass began at the end of the prompt. In a later pass it lies
    too early, by as many tokens as the buffer had grown before the pass.
   */
  lemma AnchorIsSound(tokens: seq<Token>, promptEnd: nat, start: nat, p: ActionPayload)
    requires promptEnd <= start <= |tokens| && AtMostOneByte(tokens[start..])
    requires ExtractAction(TextOf(tokens[start..]), promptEnd) == Some(p)
    ensures promptEnd <= p.startTokenPos < |tokens|
    ensures p.startTokenPos - promptEnd <= |TextOf(tokens[start..])|
    ensures EndsWith(TextOf(tokens[p.startTokenPos..]), TextOf(tokens[start..])[p.startTokenPos - promptEnd..])
    ensures OneByteEach(tokens[start..]) ==>
              var opening := p.startTokenPos + (start - promptEnd);
              && opening < |tokens|
              && TextOf(tokens[opening..]) == TextOf(tokens[start..])[p.startTokenPos - promptEnd..]
              && (p.startTokenPos == opening <==> start == promptEnd)
  {
    hide ExtractAction, MarksBlock, TypeOf, Trim, TextOf, EndsWith, OneByteEach;
    var pass := tokens[start..];
    var text := TextOf(pass);
    var m := AcceptedMarks(text, promptEnd);
    assert m.open + 9 <= |text| by {
      MarkedInside(text, m);
    }
    TextIsNoLonger(pass);
    BlockIsCovered(tokens, start, p.startTokenPos, m.open);
  }

  lemma MarkedInside(text: Text, m: Marks)
    requires MarksBlock(text, m)
    ensures InOrder(text, m)
  {
  }

  lemma BlockIsCovered(tokens: seq<Token>, start: nat, anchor: nat, off: nat)
    requires anchor <= start + off && start <= |tokens| && AtMostOneByte(tokens[start..])
    requires off <= |TextOf(tokens[start..])|
    ensures start + off <= |tokens|
    ensures EndsWith(TextOf(tokens[anchor..]), TextOf(tokens[start..])[off..])
    ensures OneByteEach(tokens[start..]) ==> TextOf(tokens[start + off..]) == TextOf(tokens[start..])[off..]
  {
    hide TextOf, EndsWith, OneByteEach, AtMostOneByte;
    var pass := tokens[start..];
    SuffixIsCovered(pass, off);
    assert pass[off..] == tokens[start + off..];
    var lead := tokens[anchor..start + off];
    assert tokens[anchor..] == lead + pass[off..];
    TextOfConcat(lead, pass[off..]);
    EndsWithin(TextOf(lead), TextOf(pass[off..]), TextOf(pass)[off..]);
  }

  /**
    What the failure history records is the text that the rollback erases: kept text, recorded text and
    nothing else make up the text of the buffer before, and the observation follows the kept text.
   */
  lemma HistoryRecordsErasedText(cfg: Config, r: Run, position: nat, error: Text, exitCode: int)
    returns (erased: Text, record: FailureRecord, obs: seq<Token>)
    requires r.line.cachePosition == |r.line.tokens|
    requires OnFault(cfg, r, position, error, exitCode).verdict.Again?
    ensures var p := OnFault(cfg, r, position, error, exitCode).run;
            && p.faults == r.faults + [Fault(position, record)]
            && record.erasedContent == TruncateTail(erased, cfg.prevention.maxErasedContentBytes)
            && record.errorMessage == TruncateTail(error, cfg.prevention.maxErrorMessageBytes)
            && record.exitCode == exitCode
            && p.line.tokens == r.line.tokens[..position] + obs
            && TextOf(r.line.tokens) == TextOf(r.line.tokens[..position]) + erased
            && p.events == r.events + [Rollback(position, |r.line.tokens| - position, r.retry + 1)]
  {
    hide TruncateTail, RollbackStep, TextOf;
    var n := r.line.cachePosition;
    erased := TextOf(r.line.tokens[position..n]);
    record := MakeRecord(cfg.prevention, erased, error, exitCode);
    var built := Observe(cfg.wording, r.history, cfg.prevention, position, erased, error, exitCode).value;
    obs := cfg.tokenize(built.text).value;
    RollbackBuffer(r.line, RollbackTarget(position, n), obs);
    assert r.line.tokens == r.line.tokens[..position] + r.line.tokens[position..n];
    TextOfConcat(r.line.tokens[..position], r.line.tokens[position..n]);
  }

  // ------------------------------------------------------------------
  // No panics, no refused ranges
  // ------------------------------------------------------------------

  /** The sandbox hints at nothing, or at the action itself, as `ProcessExecutor` does, and reports no cache error. */
  ghost predicate HintsAtAction(outcomes: seq<ActionPayload -> ExecAnswer>) {
    forall i, p :: 0 <= i < |outcomes| ==> HintOk(outcomes[i](p), p)
  }

  predicate HintOk(a: ExecAnswer, p: ActionPayload) {
    && (a.NotRun? ==> !a.error.KvCacheError?)
    && (a.Ran? && a.outcome.Failure? && a.outcome.errorTokenHint.Some? ==>
          a.outcome.errorTokenHint.value == p.startTokenPos)
  }

  ghost predicate WellBehaved(cfg: Config, r: Run) {
    && AtMostOneByte(r.host.pending)
    && HintsAtAction(r.host.outcomes)
    && (cfg.prevention.enabled ==> cfg.prevention.maxHistoryPerPosition >= 1)
  }

  /** Neither a panic nor a refusal of the rollback range. */
  predicate IsClean(v: Verdict) {
    && !v.Panicked?
    && v != Failed(INVALID_RANGE)
    && v != Failed(INTO_PROMPT)
  }

  /** Exactly when reacting to a fault panics: an anchor behind the buffer, or a history cap of zero. */
  lemma FaultPanicsIff(cfg: Config, r: Run, position: nat, error: Text, exitCode: int)
    requires r.line.cachePosition == |r.line.tokens| && Remembered(cfg, r)
    ensures OnFault(cfg, r, position, error, exitCode).verdict.Panicked? <==>
            && r.retry < cfg.maxRollbackRetries
            && (position > |r.line.tokens| || (cfg.prevention.enabled && cfg.prevention.maxHistoryPerPosition == 0))
  {
    hide TextOf, MakeRecord, Replay;
    if position <= |r.line.tokens| {
      var erased := TextOf(r.line.tokens[position..|r.line.tokens|]);
      PanicsIffCapIsZero(cfg.wording, r.faults, cfg.prevention, position, erased, error, exitCode);
      forall target, obs
        ensures !RollbackStep(r.line, target, obs).result.Panic?
      {
        RollbackErrors(r.line, target, obs);
      }
    }
  }

  lemma FaultIsClean(cfg: Config, r: Run, position: nat, error: Text, exitCode: int)
    requires Remembered(cfg, r) && (cfg.prevention.enabled ==> cfg.prevention.maxHistoryPerPosition >= 1)
    requires r.line.cachePosition == |r.line.tokens|
    requires r.line.promptEnd <= position < |r.line.tokens|
    ensures IsClean(OnFault(cfg, r, position, error, exitCode).verdict)
  {
    hide TextOf, MakeRecord, Replay;
    var erased := TextOf(r.line.tokens[position..|r.line.tokens|]);
    if cfg.prevention.enabled {
      PanicsIffCapIsZero(cfg.wording, r.faults, cfg.prevention, position, erased, error, exitCode);
    }
  }

  lemma InterceptIsClean(o: Origin, cfg: Config, r: Run, start: nat)
    requires Kept(o, cfg, r) && WellBehaved(cfg, r)
    requires r.line.promptEnd <= start <= |r.line.tokens| && AtMostOneByte(r.line.tokens[start..])
    ensures var p := Intercept(cfg, r, TextOf(r.line.tokens[start..]));
            && IsClean(p.verdict)
            && WellBehaved(cfg, p.run)
  {
    hide ExtractAction, OnFault, OnSuccess, Disciplined;
    var action := ExtractAction(TextOf(r.line.tokens[start..]), r.line.promptEnd);
    var r' := r.(host := r.host.Answered());
    assert HintsAtAction(r'.host.outcomes);
    if action.Some? {
      var p := action.value;
      AnchorIsSound(r.line.tokens, r.line.promptEnd, start, p);
      var answer := r.host.Answer(p);
      assert HintOk(answer, p);
      if answer.Ran? {
        var r1 := r'.(events := r.events + [ActionExecuted(p.actionType, answer.outcome)]);
        match answer.outcome
        case Success(stdout) => SuccessIsClean(cfg, r1, stdout);
        case Failure(exitCode, stderr, hint) =>
          FaultIsClean(cfg, r1, p.startTokenPos, stderr, exitCode);
        case Timeout(ms) =>
          FaultIsClean(cfg, r1, p.startTokenPos, cfg.wording.TimeoutError(ms), -1);
      }
    }
  }

  lemma SuccessIsClean(cfg: Config, r: Run, stdout: Text)
    ensures IsClean(OnSuccess(cfg, r, stdout).verdict)
  {
  }

  lemma PassIsClean(o: Origin, cfg: Config, r: Run)
    requires Kept(o, cfg, r) && WellBehaved(cfg, r)
    ensures var p := OnePass(cfg, r);
            && IsClean(p.verdict)
            && (p.verdict.Again? ==> WellBehaved(cfg, p.run))
  {
    hide Intercept, Generate;
    if !r.host.Cancelled() {
      var r', g, k := PassAnatomy(cfg, r);
      GenerationKeeps(o, cfg, r, r', k);
      var generated := r.host.pending[..k];
      assert r'.line.tokens[|r.line.tokens|..] == generated;
      assert AtMostOneByte(r'.host.pending);
      if g.result.Ok? && g.result.value.ActionBoundary? {
        assert [] + TextOf(generated) == TextOf(generated);
        InterceptIsClean(o, cfg, r', |r.line.tokens|);
      }
    }
  }

  lemma {:induction false} LoopIsClean(o: Origin, cfg: Config, r: Run)
    requires Kept(o, cfg, r) && WellBehaved(cfg, r)
    ensures var f := Loop(cfg, r);
            !f.result.Panic? && f.result != Err(INVALID_RANGE) && f.result != Err(INTO_PROMPT)
    decreases |r.host.pending|
  {
    hide OnePass, Accounted, Disciplined, Remembered, WellBehaved, BudgetBlown;
    PassIsClean(o, cfg, r);
    PassKeeps(o, cfg, r);
    var p := OnePass(cfg, r);
    if p.verdict.Again? {
      LoopIsClean(o, cfg, p.run);
    } else if p.verdict.Done? {
      KeptSummary(o, cfg, p.run);
    }
  }

  lemma KeptSummary(o: Origin, cfg: Config, r: Run)
    requires Kept(o, cfg, r)
    ensures Summary(r).Ok?
  {
  }

  /**
    When every generated token decodes to at most one byte, the sandbox hints at the action itself and
    the history cap is not zero, no session panics and no rollback is refused for its range.
   */
  lemma SessionIsClean(cfg: Config, m: Machine, prompt: seq<Token>)
    requires AtMostOneByte(m.host.pending) && HintsAtAction(m.host.outcomes)
    requires cfg.prevention.enabled ==> cfg.prevention.maxHistoryPerPosition >= 1
    ensures var f := Session(cfg, m, prompt);
            !f.result.Panic? && f.result != Err(INVALID_RANGE) && f.result != Err(INTO_PROMPT)
  {
    var r := Prefill(cfg, m, prompt);
    StartIsKept(cfg, m, prompt, r.line);
    LoopIsClean(OriginOf(m, prompt), cfg, r);
  }

  // ------------------------------------------------------------------
  // Progress
  // ------------------------------------------------------------------

  /** Against a model that emits `N` tokens, a run takes at most `N + 1` passes, whatever the sandbox answers. */
  lemma {:induction false} PassesAreBounded(cfg: Config, r: Run)
    ensures Loop(cfg, r).run.passes <= r.passes + |r.host.pending| + 1
    decreases |r.host.pending|
  {
    hide Intercept, Generate;
    PassCounts(cfg, r);
    var p := OnePass(cfg, r);
    if p.verdict.Again? {
      PassesAreBounded(cfg, p.run);
    }
  }

  lemma PassCounts(cfg: Config, r: Run)
    ensures OnePass(cfg, r).run.passes <= r.passes + 1
  {
    hide ExtractAction, RollbackStep, Observe, Generate, EvaluateStep;
  }

  lemma SessionPasses(cfg: Config, m: Machine, prompt: seq<Token>)
    ensures Session(cfg, m, prompt).run.passes <= |m.host.pending| + 1
  {
    PassesAreBounded(cfg, Prefill(cfg, m, prompt));
  }

  /** At every pass and every position the history holds the last failures there, oldest first. */
  lemma HistoryAtEveryPass(cfg: Config, m: Machine, prompt: seq<Token>, n: nat, position: nat)
    requires cfg.prevention.enabled && cfg.prevention.maxHistoryPerPosition >= 1
    ensures var s := AtPass(cfg, Prefill(cfg, m, prompt), n);
            s.Some? ==>
              && s.value.history.Some?
              && RecordsAt(s.value.history.value, position)
                 == LastOf(At(s.value.faults, position), cfg.prevention.maxHistoryPerPosition)
  {
    hide AtPass, Prefill, Accounted, Disciplined;
    SessionIsKept(cfg, m, prompt, n);
    var s := AtPass(cfg, Prefill(cfg, m, prompt), n);
    if s.Some? {
      HistoryIsSlidingWindow(s.value.faults, cfg.prevention.maxHistoryPerPosition, position);
    }
  }
}
