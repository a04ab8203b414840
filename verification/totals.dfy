/** When the reported number of generated tokens is the number of tokens generated. */
module TokenTotals {
  import opened Wrappers
  import opened Texts
  import opened ActionParser
  import opened KvCache
  import opened Engine
  import opened SessionProperties
  import opened Boundaries
  import opened OneTokenSessions

  /** Some text stops the generator at an action boundary and holds an action. */
  ghost predicate CanAct(cfg: Config) {
    exists text: Text :: IsBoundary(cfg, text) && ExtractAction(text, 0).Some?
  }

  lemma ParsesAnywhere(text: Text, a: nat, b: nat)
    ensures ExtractAction(text, a).Some? <==> ExtractAction(text, b).Some?
  {
    hide ExtractAction;
    AcceptsExactlyMarkedBlocks(text, a);
    AcceptsExactlyMarkedBlocks(text, b);
  }

  // ------------------------------------------------------------------
  // Without actions the total is exact
  // ------------------------------------------------------------------

  ghost predicate NothingWritten(r: Run) {
    && r.line.cachePosition == |r.line.tokens|
    && r.written == [] && Erased(r.events) == 0
  }

  lemma PassWithoutAction(cfg: Config, r: Run)
    requires !CanAct(cfg) && NothingWritten(r)
    ensures var p := OnePass(cfg, r);
            p.verdict.Again? || p.verdict.Done? ==> NothingWritten(p.run)
  {
    hide Generate, ExtractAction, Execute, MatchedStop, Erased;
    if !r.host.Cancelled() {
      var r', g, k := PassAnatomy(cfg, r);
      if g.result.Ok? && g.result.value.ActionBoundary? {
        var text := g.result.value.generatedText;
        assert IsBoundary(cfg, text) by {
          StopsWithMatch(cfg, r.line, r.host.CancelRead(), cfg.maxTokens, []);
        }
        ParsesAnywhere(text, 0, r'.line.promptEnd);
        AppendEvent(r.events, Warning);
      }
    }
  }

  lemma {:induction false} LoopWithoutAction(cfg: Config, r: Run)
    requires !CanAct(cfg) && NothingWritten(r)
    ensures Loop(cfg, r).result.Ok? ==> NothingWritten(Loop(cfg, r).run)
    decreases |r.host.pending|
  {
    hide OnePass, CanAct, NothingWritten;
    PassWithoutAction(cfg, r);
    if OnePass(cfg, r).verdict.Again? {
      LoopWithoutAction(cfg, OnePass(cfg, r).run);
    }
  }

  /** With no prompt or no budget a session generates nothing before it ends. */
  lemma NothingGenerated(cfg: Config, r: Run)
    requires r.line.tokens == [] || cfg.maxTokens == 0
    ensures var f := Loop(cfg, r);
            f.result.Ok? ==> f.run.line.tokens == r.line.tokens && f.run.host.streamed == r.host.streamed
                             && f.run.line.promptEnd == r.line.promptEnd && f.result == Summary(f.run)
  {
    hide Intercept;
  }

  // ------------------------------------------------------------------
  // With actions it is not
  // ------------------------------------------------------------------

  /** The backend tokenizes every text, a non-empty one to at least one token. */
  ghost predicate TokenizesAll(cfg: Config) {
    forall s: Text :: cfg.tokenize(s).Some? && (s != [] ==> cfg.tokenize(s).value != [])
  }

  /** The reported total is the number of tokens generated. */
  ghost predicate IsExact(cfg: Config, m: Machine, prompt: seq<Token>) {
    var f := Session(cfg, m, prompt);
    f.result.Ok? ==> f.result.value.totalTokensGenerated == |f.run.host.streamed| - |m.host.streamed|
  }

  lemma ActionInflates(cfg: Config, prompt: seq<Token>) returns (m: Machine)
    requires TokenizesAll(cfg) && CanAct(cfg) && cfg.maxTokens >= 1 && prompt != []
    ensures !IsExact(cfg, m, prompt)
  {
    hide IsBoundary, ExtractAction, Session;
    var text: Text :| IsBoundary(cfg, text) && ExtractAction(text, 0).Some?;
    ParsesAnywhere(text, 0, |prompt|);
    assert cfg.wording.Success("x") != [];
    var obs := cfg.tokenize(cfg.wording.Success("x")).value;
    SuccessInflatesTotal(cfg, prompt, Token(0, text), "x", obs);
    m := OneTokenMachine(None, Token(0, text), Succeed("x"));
  }

  /**
    `total_tokens_generated` is documented as including erased tokens. It counts the final buffer
    instead. It is the number of tokens generated in every session on a prompt exactly when the
    configuration never acts: no budget, nothing to continue, or no text that is both a boundary and an
    action.
   */
  lemma TotalIsExactIff(cfg: Config, prompt: seq<Token>)
    requires TokenizesAll(cfg)
    ensures (forall m: Machine :: IsExact(cfg, m, prompt))
            <==> prompt == [] || cfg.maxTokens == 0 || !CanAct(cfg)
  {
    hide CanAct, TokenizesAll, IsExact;
    if prompt == [] || cfg.maxTokens == 0 || !CanAct(cfg) {
      forall m: Machine
        ensures IsExact(cfg, m, prompt)
      {
        TotalIsExact(cfg, m, prompt);
      }
    } else {
      var m := ActionInflates(cfg, prompt);
    }
  }

  lemma TotalIsExact(cfg: Config, m: Machine, prompt: seq<Token>)
    requires prompt == [] || cfg.maxTokens == 0 || !CanAct(cfg)
    ensures IsExact(cfg, m, prompt)
  {
    hide Loop, CanAct, EvaluateStep;
    var line := EvaluateStep(Start(cfg, m, prompt).line, 0, AllButLast(prompt)).line;
    var r := Start(cfg, m, prompt).(line := line);
    if Session(cfg, m, prompt).result.Ok? {
      PrefillLeavesBuffer(Start(cfg, m, prompt).line, AllButLast(prompt));
      TotalTokensGeneratedIff(cfg, m, prompt);
      OkIsSummary(cfg, r);
      if !CanAct(cfg) {
        LoopWithoutAction(cfg, r);
      } else {
        NothingGenerated(cfg, r);
      }
    }
  }

  lemma PrefillLeavesBuffer(l: Line, tokens: seq<Token>)
    ensures var e := EvaluateStep(l, 0, tokens).line;
            e.tokens == l.tokens && e.promptEnd == l.promptEnd && e.cachePosition == l.cachePosition
  {
  }

  // ------------------------------------------------------------------
  // Which configurations act
  // ------------------------------------------------------------------

  lemma {:induction false} NoBoundaryNoMatch(stops: seq<StopSequence>, text: Text)
    requires forall i :: 0 <= i < |stops| ==> !stops[i].isActionBoundary
    ensures MatchedStop(stops, text).Some? ==> !MatchedStop(stops, text).value.isActionBoundary
  {
    hide EndsWith;
    if stops != [] {
      NoBoundaryNoMatch(stops[1..], text);
    }
  }

  lemma FirstAtExtends(a: Text, b: Text, p: Text, i: nat)
    requires FirstAt(a, p, i)
    ensures FirstAt(a + b, p, i)
  {
    forall j: nat | j <= i
      ensures MatchesAt(a + b, p, j) <==> MatchesAt(a, p, j)
    {
      MatchWithin(a, b, p, j);
    }
  }

  lemma BlockExtends(a: Text, b: Text, m: Marks)
    requires MarksBlock(a, m)
    ensures MarksBlock(a + b, m)
  {
    hide FirstAt;
    FirstAtExtends(a, b, OPEN_TAG, m.open);
    FirstAtExtends(a, b, CLOSE_TAG, m.close);
    assert (a + b)[m.open..m.openEnd - 1] == a[m.open..m.openEnd - 1];
  }

  /**
    A configuration without boundary stops never acts; one whose first stop sequence is a boundary does,
    as the default one.
   */
  lemma ActingConfigurations(cfg: Config)
    ensures (forall i :: 0 <= i < |cfg.stopSequences| ==> !cfg.stopSequences[i].isActionBoundary) ==> !CanAct(cfg)
    ensures cfg.stopSequences != [] && cfg.stopSequences[0].isActionBoundary ==> CanAct(cfg)
  {
    hide MatchedStop, ExtractAction;
    if forall i :: 0 <= i < |cfg.stopSequences| ==> !cfg.stopSequences[i].isActionBoundary {
      forall text: Text
        ensures !IsBoundary(cfg, text)
      {
        NoBoundaryNoMatch(cfg.stopSequences, text);
      }
    }
    if cfg.stopSequences != [] && cfg.stopSequences[0].isActionBoundary {
      FirstStopActs(cfg);
    }
  }

  lemma FirstStopActs(cfg: Config)
    requires cfg.stopSequences != [] && cfg.stopSequences[0].isActionBoundary
    ensures CanAct(cfg)
  {
    hide ExtractAction, MatchedStop, EndsWith, MarksBlock, Render, Trim;
    var pattern := cfg.stopSequences[0].pattern;
    var text := SMALLEST.text + pattern;
    SmallestIsAction(0);
    var m := AcceptedMarks(SMALLEST.text, 0);
    BlockExtends(SMALLEST.text, pattern, m);
    AcceptsExactlyMarkedBlocks(text, 0);
    TailEnds(SMALLEST.text, pattern);
    MatchedStopIsFirst(cfg.stopSequences, text, 0);
    assert IsBoundary(cfg, text);
  }
}
