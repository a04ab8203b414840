/** How far back a rollback reaches: when it keeps what was written before its own pass, and when not. */
module RollbackReach {
  import opened Wrappers
  import opened Texts
  import opened ActionParser
  import opened KvCache
  import opened FailureHistory
  import opened Engine
  import opened SessionProperties
  import opened AnchorProperties
  import opened Reactions
  import opened OneTokenSessions
  import opened CacheLead

  // ------------------------------------------------------------------
  // Every rollback of every session
  // ------------------------------------------------------------------

  ghost predicate Hinted(promptEnd: nat, r: Run) {
    && r.line.cachePosition == |r.line.tokens|
    && r.line.promptEnd == promptEnd <= |r.line.tokens|
    && HintsAtAction(r.host.outcomes)
  }

  lemma PassIsHinted(promptEnd: nat, cfg: Config, r: Run)
    requires Hinted(promptEnd, r) && OnePass(cfg, r).verdict.Again?
    ensures Hinted(promptEnd, OnePass(cfg, r).run)
  {
    hide OnePass, RollbackStep, HintOk;
    var g, k, x := LoopingPass(cfg, r);
    if x.Resumed? {
      RollbackBuffer(g.line, RollbackTarget(x.from, |g.line.tokens|), x.obs);
    }
  }

  lemma {:induction false} HintedFrom(promptEnd: nat, cfg: Config, r: Run, n: nat)
    requires Hinted(promptEnd, r)
    ensures var s := AtPass(cfg, r, n);
            s.Some? ==> Hinted(promptEnd, s.value)
    decreases n
  {
    hide OnePass, Hinted;
    if n > 0 && OnePass(cfg, r).verdict.Again? {
      PassIsHinted(promptEnd, cfg, r);
      HintedFrom(promptEnd, cfg, OnePass(cfg, r).run, n - 1);
    }
  }

  /** The pass that starts in `s` rolls back: `g` is the run after its generation, `t` the run after the pass. */
  ghost predicate RollsBackTo(s: Run, g: Run, t: Run, position: nat, obs: seq<Token>) {
    && s.line.tokens <= g.line.tokens && position < |g.line.tokens|
    && t.line.tokens == g.line.tokens[..position] + obs
    && t.events != [] && t.events[|t.events| - 1] == Rollback(position, |g.line.tokens| - position, t.retry)
  }

  lemma RollbackPass(cfg: Config, s: Run) returns (g: Run, open: nat, obs: seq<Token>)
    requires Hinted(s.line.promptEnd, s) && OnePass(cfg, s).verdict.Again?
    requires OnePass(cfg, s).run.rollbackCount > s.rollbackCount
    ensures RollsBackTo(s, g, OnePass(cfg, s).run, s.line.promptEnd + open, obs)
    ensures FirstAt(TextOf(g.line.tokens[|s.line.tokens|..]), OPEN_TAG, open)
  {
    hide Intercept, Generate, ExtractAction, RollbackStep, FailureShown, TextOf, FirstAt, MarksBlock;
    var stop, k;
    g, stop, k := PassAnatomy(cfg, s);
    var text := stop.result.value.generatedText;
    var x := InterceptReacts(cfg, g, text);
    obs := x.obs;
    var p := ExtractAction(text, g.line.promptEnd).value;
    assert HintOk(g.host.Answer(p), p) by {
      AnswerIsHinted(g.host, p);
    }
    RollbackBuffer(g.line, RollbackTarget(x.from, |g.line.tokens|), obs);
    open := OpensAtAnchor(text, g.line.promptEnd);
    assert g.line.tokens[|s.line.tokens|..] == s.host.pending[..k];
    assert [] + TextOf(s.host.pending[..k]) == TextOf(s.host.pending[..k]);
  }

  lemma AnswerIsHinted(h: Host, p: ActionPayload)
    requires HintsAtAction(h.outcomes)
    ensures HintOk(h.Answer(p), p)
  {
  }

  lemma OpensAtAnchor(text: Text, tokenOffset: nat) returns (open: nat)
    requires ExtractAction(text, tokenOffset).Some?
    ensures FirstAt(text, OPEN_TAG, open) && ExtractAction(text, tokenOffset).value.startTokenPos == tokenOffset + open
  {
    hide ExtractAction, TypeOf, Trim, FirstAt;
    var m := AcceptedMarks(text, tokenOffset);
    open := m.open;
  }

  /**
    With hints at the action itself, a rollback in any pass of any session goes back to the end of the
    prompt plus the byte offset of the first `<action` in the text of that pass. So it keeps all that was
    in the buffer when the pass began if and only if that offset is at least the number of tokens behind
    the prompt at that time; otherwise it erases results of earlier passes as well.
   */
  lemma RollbackKeepsEarlierIff(cfg: Config, m: Machine, prompt: seq<Token>, n: nat)
    returns (g: Run, open: nat, obs: seq<Token>)
    requires HintsAtAction(m.host.outcomes)
    requires AtPass(cfg, Prefill(cfg, m, prompt), n).Some?
    requires var s := AtPass(cfg, Prefill(cfg, m, prompt), n).value;
             OnePass(cfg, s).verdict.Again? && OnePass(cfg, s).run.rollbackCount > s.rollbackCount
    ensures var s := AtPass(cfg, Prefill(cfg, m, prompt), n).value;
            && RollsBackTo(s, g, OnePass(cfg, s).run, |prompt| + open, obs)
            && FirstAt(TextOf(g.line.tokens[|s.line.tokens|..]), OPEN_TAG, open)
            && (s.line.tokens <= g.line.tokens[..|prompt| + open] <==> open >= |s.line.tokens| - |prompt|)
  {
    hide AtPass, OnePass, FirstAt, TextOf;
    HintedFrom(|prompt|, cfg, Prefill(cfg, m, prompt), n);
    var s := AtPass(cfg, Prefill(cfg, m, prompt), n).value;
    g, open, obs := RollbackPass(cfg, s);
  }

  // ------------------------------------------------------------------
  // A rollback that erases a success
  // ------------------------------------------------------------------

  /** A model that writes the smallest action twice; the first succeeds, the second fails. */
  function TwoActions(tracked: nat, stdout: Text): Machine {
    Machine(map[], Some(tracked), [], Host([SMALLEST, SMALLEST], [Succeed(stdout), Fail()], [], []), 0, 0)
  }

  /**
    The second action fails, and its rollback erases the first, successful one together with its
    observation: the buffer is cut at the end of the prompt.
   */
  lemma FailureErasesSuccess(cfg: Config, tracked: nat, prompt: seq<Token>, stdout: Text, obs: seq<Token>)
    requires Permits(cfg) && prompt != []
    requires cfg.tokenize(cfg.wording.Success(stdout)) == Some(obs)
    requires tracked >= |prompt| + 2 + |obs|
    ensures var f := Session(cfg, TwoActions(tracked, stdout), prompt);
            && f.result.Ok?
            && |f.run.events| == 3 && IsSuccess(f.run.events[0]) && IsFault(f.run.events[1])
            && f.run.events[2] == Rollback(|prompt|, 2 + |obs|, 1)
  {
    hide Session, Loop, OnePass, OnSuccess, OnFault, ExtractAction, MatchedStop, Phrases.Success, Trim, Permits;
    assert cfg.stopSequences == DEFAULT_STOPS && cfg.maxTokens >= 1 by {
      PermitsActions(cfg);
    }
    SmallestIsAction(|prompt|);
    var p := ExtractAction(SMALLEST.text, |prompt|).value;
    var r0 := Prefill(cfg, TwoActions(tracked, stdout), prompt);
    TwoActionsStart(cfg, tracked, prompt, stdout);
    var g1 := ActionPass(cfg, r0, p);
    var e1 := ActionExecuted(p.actionType, Success(stdout));
    var s1 := g1.(host := g1.host.Answered(), events := [] + [e1]);
    assert Execute(cfg, g1, p) == OnSuccess(cfg, s1, stdout);
    SuccessObserved(cfg, s1, stdout, obs);
    var r1 := OnSuccess(cfg, s1, stdout).run;
    var g2 := ActionPass(cfg, r1, p);
    var e2 := ActionExecuted(p.actionType, Failure(1, [], Some(|prompt|)));
    var s2 := g2.(host := g2.host.Answered(), events := r1.events + [e2]);
    assert Execute(cfg, g2, p) == OnFault(cfg, s2, |prompt|, [], 1);
    FirstFaultRollsBack(cfg, s2, |prompt|, [], 1);
    var t := OnFault(cfg, s2, |prompt|, [], 1).run;
    SilentModelEnds(cfg, t);
    LoopsOn(cfg, r1);
    LoopsOn(cfg, r0);
    SummaryIsOk(Loop(cfg, t).run);
  }

  lemma PermitsActions(cfg: Config)
    requires Permits(cfg)
    ensures cfg.stopSequences == DEFAULT_STOPS && cfg.maxTokens >= 1
  {
  }

  lemma TwoActionsStart(cfg: Config, tracked: nat, prompt: seq<Token>, stdout: Text)
    ensures var r := Prefill(cfg, TwoActions(tracked, stdout), prompt);
            && r == Start(cfg, TwoActions(tracked, stdout), prompt).(line := r.line)
            && r.line.tokens == prompt && r.line.promptEnd == r.line.cachePosition == |prompt|
            && r.line.tracked == Some(tracked) && r.line.ffi == []
            && Session(cfg, TwoActions(tracked, stdout), prompt) == Loop(cfg, r)
  {
    hide Loop, Write;
  }

  lemma LoopsOn(cfg: Config, r: Run)
    requires OnePass(cfg, r).verdict.Again?
    ensures Loop(cfg, r) == Loop(cfg, OnePass(cfg, r).run)
  {
    hide OnePass;
  }

  lemma SummaryIsOk(r: Run)
    requires r.line.promptEnd <= |r.line.tokens|
    ensures Summary(r).Ok?
  {
  }
}
