/** Sessions in which the model emits one token, an action: witnesses for what can happen. */
module OneTokenSessions {
  import opened Wrappers
  import opened Texts
  import opened ActionParser
  import opened KvCache
  import opened FailureHistory
  import opened Engine
  import opened SessionProperties
  import opened AnchorProperties
  import opened Boundaries

  /** The text is an action boundary of the configuration. */
  predicate IsBoundary(cfg: Config, text: Text) {
    var stop := MatchedStop(cfg.stopSequences, text);
    stop.Some? && stop.value.isActionBoundary
  }

  /** A cache manager with a given count, a model that emits `t`, and a sandbox that answers `a` once. */
  function OneTokenMachine(tracked: Option<nat>, t: Token, a: ActionPayload -> ExecAnswer): Machine {
    Machine(map[], tracked, [], Host([t], [a], [], []), 0, 0)
  }

  lemma TokenStops(cfg: Config, l: Line, h: Host)
    requires cfg.maxTokens >= 1 && h.pending != [] && h.cancels == [] && l.tokens != [] && l.ffi == []
    requires IsBoundary(cfg, h.pending[0].text)
    ensures var g, t := Generate(cfg, l, h, cfg.maxTokens, []), h.pending[0];
            && g.result == Ok(ActionBoundary(t.text))
            && g.host == h.(pending := h.pending[1..], streamed := h.streamed + [t.text])
            && g.line.tokens == l.tokens + [t] && g.line.cachePosition == |l.tokens| + 1
            && g.line.promptEnd == l.promptEnd && g.line.ffi == [] && g.line.tracked == l.tracked
  {
    hide MatchedStop, Write;
    assert [] + h.pending[0].text == h.pending[0].text;
  }

  /** A pass in which the model emits an action as one token, undisturbed, executes that action. */
  lemma ActionPass(cfg: Config, r: Run, p: ActionPayload) returns (g: Run)
    requires cfg.maxTokens >= 1 && r.host.pending != [] && r.host.cancels == []
    requires r.line.tokens != [] && r.line.ffi == []
    requires IsBoundary(cfg, r.host.pending[0].text)
    requires ExtractAction(r.host.pending[0].text, r.line.promptEnd) == Some(p)
    ensures var t := r.host.pending[0];
            && g == r.(line := g.line, passes := r.passes + 1,
                       host := r.host.(pending := r.host.pending[1..], streamed := r.host.streamed + [t.text]))
            && g.line.tokens == r.line.tokens + [t] && g.line.cachePosition == |g.line.tokens|
            && g.line.promptEnd == r.line.promptEnd && g.line.tracked == r.line.tracked && g.line.ffi == []
    ensures OnePass(cfg, r) == Execute(cfg, g, p)
  {
    hide MatchedStop, ExtractAction, Generate, Execute;
    TokenStops(cfg, r.line, r.host);
    var stop := Generate(cfg, r.line, r.host, cfg.maxTokens, []);
    g := r.(line := stop.line, host := stop.host, passes := r.passes + 1);
  }

  /** A model that is out of tokens ends the session and leaves everything else as it is. */
  lemma SilentModelEnds(cfg: Config, r: Run)
    requires cfg.maxTokens >= 1 && r.host.pending == [] && r.host.cancels == []
    requires r.line.tokens != [] && r.line.ffi == []
    ensures var f := Loop(cfg, r);
            && f.run == r.(line := f.run.line, passes := f.run.passes)
            && f.run.line.tokens == r.line.tokens && f.run.line.promptEnd == r.line.promptEnd
            && f.result == Summary(f.run)
  {
    hide Intercept, Write;
    assert OnePass(cfg, r).verdict.Done?;
  }

  /** The first pass generates the token and executes the action. */
  lemma OneTokenSession(cfg: Config, tracked: Option<nat>, prompt: seq<Token>, t: Token,
                        a: ActionPayload -> ExecAnswer, p: ActionPayload)
    returns (g: Run)
    requires prompt != [] && cfg.maxTokens >= 1 && IsBoundary(cfg, t.text)
    requires ExtractAction(t.text, |prompt|) == Some(p)
    ensures g.line.tokens == prompt + [t] && g.line.cachePosition == |prompt| + 1
    ensures g.line.promptEnd == |prompt| && g.line.tracked == tracked && g.line.ffi == []
    ensures g.host == Host([], [a], [], [t.text]) && g.rollbackCount == g.totalErased == g.retry == 0
    ensures g.events == [] && g.history == if cfg.prevention.enabled then Some(map[]) else None
    ensures var x := Execute(cfg, g, p);
            Session(cfg, OneTokenMachine(tracked, t, a), prompt) ==
            match x.verdict
            case Again => Loop(cfg, x.run)
            case Done => Final(x.run, Summary(x.run))
            case Failed(e) => Final(x.run, Err(e))
            case Panicked => Final(x.run, Panic)
  {
    hide MatchedStop, ExtractAction, Execute, Write;
    var m := OneTokenMachine(tracked, t, a);
    var r := Prefill(cfg, m, prompt);
    g := ActionPass(cfg, r, p);
    assert [] + [t.text] == [t.text];
    assert Session(cfg, m, prompt) == Loop(cfg, r);
  }

  /** The sandbox answers with success and this output. */
  function Succeed(stdout: Text): ActionPayload -> ExecAnswer {
    (p: ActionPayload) => Ran(Success(stdout))
  }

  /** The sandbox answers with a failure of code 1 and blames the action. */
  function Fail(): ActionPayload -> ExecAnswer {
    (p: ActionPayload) => Ran(Failure(1, [], Some(p.startTokenPos)))
  }

  /**
    One token, an action that succeeds, and an observation: the reported total counts the observation
    as well, whatever its length.
   */
  lemma SuccessInflatesTotal(cfg: Config, prompt: seq<Token>, t: Token, stdout: Text, obs: seq<Token>)
    requires prompt != [] && cfg.maxTokens >= 1 && IsBoundary(cfg, t.text)
    requires ExtractAction(t.text, |prompt|).Some?
    requires cfg.tokenize(cfg.wording.Success(stdout)) == Some(obs)
    ensures var f := Session(cfg, OneTokenMachine(None, t, Succeed(stdout)), prompt);
            && f.result.Ok?
            && |f.run.host.streamed| == 1 && f.result.value.totalTokensGenerated == 1 + |obs|
  {
    hide MatchedStop, ExtractAction, Write, Phrases.Success, OnSuccess, Session;
    var p := ExtractAction(t.text, |prompt|).value;
    var g := OneTokenSession(cfg, None, prompt, t, Succeed(stdout), p);
    var x := Execute(cfg, g, p);
    var e := ActionExecuted(p.actionType, Success(stdout));
    SuccessObserved(cfg, g.(host := g.host.Answered(), events := g.events + [e]), stdout, obs);
    SilentModelEnds(cfg, x.run);
  }

  lemma SuccessObserved(cfg: Config, r: Run, stdout: Text, obs: seq<Token>)
    requires cfg.tokenize(cfg.wording.Success(stdout)) == Some(obs)
    requires r.line.ffi == []
    ensures var p := OnSuccess(cfg, r, stdout);
            && p.verdict.Again?
            && p.run == r.(line := p.run.line, retry := 0, written := p.run.written)
            && p.run.line.tokens == r.line.tokens + obs && p.run.line.promptEnd == r.line.promptEnd
            && p.run.line.ffi == [] && p.run.line.tracked == r.line.tracked
            && (r.line.cachePosition == |r.line.tokens| ==> p.run.line.cachePosition == |p.run.line.tokens|)
  {
    hide Phrases.Success, Write;
  }

  /**
    One-byte tokens are needed: when the model emits an action with a lead-in of two or more bytes as a
    single token and the action fails, the anchor lies behind the buffer and the session panics.
   */
  lemma LongTokenPanics(cfg: Config, tracked: Option<nat>, prompt: seq<Token>, t: Token,
                        prefix: Text, actionType: Text, body: Text)
    requires cfg.stopSequences == DEFAULT_STOPS && cfg.maxTokens >= 1 && cfg.maxRollbackRetries >= 1
    requires prompt != [] && |prefix| >= 2
    requires t.text == Render(prefix, actionType, body) && Clean(prefix, actionType, body)
    ensures Session(cfg, OneTokenMachine(tracked, t, Fail()), prompt).result.Panic?
  {
    hide Render, Clean, MatchedStop, ExtractAction, OnFault, Session, Trim;
    MarkersAtEnd(prefix, actionType, body);
    RenderingStopsOnlyAtEnd(prefix, actionType, body, 0);
    CleanRoundTrip(prefix, actionType, body, |prompt|);
    var p := ExtractAction(t.text, |prompt|).value;
    var g := OneTokenSession(cfg, tracked, prompt, t, Fail(), p);
    var r := g.(host := g.host.Answered(),
                events := g.events + [ActionExecuted(p.actionType, Failure(1, [], Some(p.startTokenPos)))]);
    BeyondBufferPanics(cfg, r, p.startTokenPos, [], 1);
  }

  lemma BeyondBufferPanics(cfg: Config, r: Run, position: nat, error: Text, exitCode: int)
    requires position > |r.line.tokens| && r.retry < cfg.maxRollbackRetries
    ensures OnFault(cfg, r, position, error, exitCode).verdict.Panicked?
  {
  }

  /** The smallest action, as one token. */
  const SMALLEST: Token := Token(0, Render([], [], "x"))

  lemma SmallestIsAction(tokenOffset: nat)
    ensures Clean([], [], "x")
    ensures MatchedStop(DEFAULT_STOPS, SMALLEST.text) == Some(DEFAULT_STOPS[0]) && DEFAULT_STOPS[0].isActionBoundary
    ensures ExtractAction(SMALLEST.text, tokenOffset)
            == Some(ActionPayload([], Trim("x"), tokenOffset, tokenOffset + |SMALLEST.text|))
  {
    hide Render, MatchedStop, ExtractAction, Trim, Occurs;
    ShortIsClean([], OPEN_TAG);
    ShortIsClean([], CLOSE_TAG);
    ShortIsClean([], END_OF_TEXT);
    ShortIsClean("x", CLOSE_TAG);
    ShortIsClean("x", END_OF_TEXT);
    SmallestIsParsed(tokenOffset);
  }

  lemma SmallestIsParsed(tokenOffset: nat)
    requires Clean([], [], "x")
    ensures MatchedStop(DEFAULT_STOPS, SMALLEST.text) == Some(DEFAULT_STOPS[0])
    ensures |SMALLEST.text| > 0
    ensures ExtractAction(SMALLEST.text, tokenOffset)
            == Some(ActionPayload([], Trim("x"), tokenOffset, tokenOffset + |SMALLEST.text|))
  {
    hide Render, Clean, MatchedStop, ExtractAction, Trim;
    MarkersAtEnd([], [], "x");
    RenderingStopsOnlyAtEnd([], [], "x", 0);
    CleanRoundTrip([], [], "x", tokenOffset);
  }
}
