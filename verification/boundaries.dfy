/**
  Stop detection and parsing cooperate: where a text stops, what the parser makes of it, and what the
  session does then.
 */
module Boundaries {
  import opened Wrappers
  import opened Texts
  import opened ActionParser
  import opened KvCache
  import opened FailureHistory
  import opened Engine
  import opened SessionProperties
  import opened AnchorProperties
  import opened Reactions

  // ------------------------------------------------------------------
  // Stop detection and parsing cooperate
  // ------------------------------------------------------------------

  /** The bytes generated by a call of the generator. */
  function Produced(h: Host, g: Generated): Text
    requires |g.host.pending| <= |h.pending|
  {
    TextOf(h.pending[..|h.pending| - |g.host.pending|])
  }

  /** `p` occurs in `text` at its end only. */
  ghost predicate OnlyAtEnd(text: Text, p: Text) {
    forall j: nat :: MatchesAt(text, p, j) ==> j + |p| == |text|
  }

  /** One more byte can complete an occurrence at the end only. */
  lemma OneMoreByte(text: Text, c: Text, p: Text)
    requires |c| <= 1 && !Occurs(text, p)
    ensures OnlyAtEnd(text + c, p)
    ensures !EndsWith(text + c, p) ==> !Occurs(text + c, p)
  {
    forall j: nat | MatchesAt(text + c, p, j)
      ensures j + |p| == |text + c| && EndsWith(text + c, p)
    {
      if j + |p| <= |text| {
        MatchWithin(text, c, p, j);
        assert false;
      }
      assert (text + c)[j..] == (text + c)[j..j + |p|];
    }
  }

  lemma StopsNow(cfg: Config, l: Line, h: Host, budget: nat, text: Text)
    requires budget == 0 || h.Cancelled() || !GenerateNext(l, h.CancelRead()).result.Ok?
             || GenerateNext(l, h.CancelRead()).result.value.None?
    ensures var g := Generate(cfg, l, h, budget, text);
            g.host.pending == h.pending && !(g.result.Ok? && g.result.value.ActionBoundary?)
  {
    hide EvaluateStep, MatchedStop;
  }

  /** The first token, then the rest. */
  lemma GeneratesOne(cfg: Config, l: Line, h: Host, budget: nat, text: Text) returns (t: Token, l': Line, h': Host)
    requires budget > 0 && !h.Cancelled()
    requires var s := GenerateNext(l, h.CancelRead()); s.result.Ok? && s.result.value.Some?
    ensures h.pending != [] && t == h.pending[0] && h'.pending == h.pending[1..] && h'.cancels == Later(h.cancels)
    ensures l.tokens != [] && l'.tokens != []
    ensures var stop := MatchedStop(cfg.stopSequences, text + t.text);
            Generate(cfg, l, h, budget, text) ==
            if stop.None? then Generate(cfg, l', h', budget - 1, text + t.text)
            else Generated(l', h', Ok(if stop.value.isActionBoundary then ActionBoundary(text + t.text) else Terminal))
  {
    hide EvaluateStep, MatchedStop;
    var s := GenerateNext(l, h.CancelRead());
    t := s.result.value.value;
    l', h' := s.line.Push([t]), s.host.Stream(t);
  }

  lemma ProducedOneMore(h: Host, h': Host, g: Generated, text: Text)
    requires h.pending != [] && h'.pending == h.pending[1..] && |g.host.pending| <= |h'.pending|
    ensures text + Produced(h, g) == text + h.pending[0].text + Produced(h', g)
    ensures |g.host.pending| == |h'.pending| ==> text + Produced(h, g) == text + h.pending[0].text
  {
    var k := |h'.pending| - |g.host.pending|;
    var t, rest := h.pending[0], h'.pending[..k];
    assert h.pending[..k + 1] == [t] + rest;
    TextOfConcat([t], rest);
    TextOfPush([], t);
    assert [] + [t] == [t];
  }

  /**
    With tokens of at most one byte the generator passes no configured stop sequence: one that was not
    in the text before occurs at the end of what is produced or nowhere, and nowhere when the generator
    ran out of budget. At an action boundary the text returned is all that was produced.
   */
  lemma {:induction false} NoStopIsPassed(cfg: Config, l: Line, h: Host, budget: nat, text: Text, i: nat)
    requires i < |cfg.stopSequences| && AtMostOneByte(h.pending)
    requires !Occurs(text, cfg.stopSequences[i].pattern)
    ensures var g := Generate(cfg, l, h, budget, text);
            var p := cfg.stopSequences[i].pattern;
            && OnlyAtEnd(text + Produced(h, g), p)
            && (g.result == Ok(MaxTokens) ==> !Occurs(text + Produced(h, g), p))
            && (g.result.Ok? && g.result.value.ActionBoundary? ==>
                  g.result.value.generatedText == text + Produced(h, g))
    decreases budget
  {
    hide MatchedStop, GenerateNext, Occurs, OnlyAtEnd, Generate, Produced;
    var p := cfg.stopSequences[i].pattern;
    var g := Generate(cfg, l, h, budget, text);
    var s := GenerateNext(l, h.CancelRead());
    if budget == 0 || h.Cancelled() || !s.result.Ok? || s.result.value.None? {
      StopsNow(cfg, l, h, budget, text);
      NothingProduced(h, g, text, p);
    } else {
      var t, l', h' := GeneratesOne(cfg, l, h, budget, text);
      OneMoreByte(text, t.text, p);
      ProducedOneMore(h, h', g, text);
      if MatchedStop(cfg.stopSequences, text + t.text).None? {
        MatchedStopIsFirst(cfg.stopSequences, text + t.text, i);
        NoStopIsPassed(cfg, l', h', budget - 1, text + t.text, i);
      }
    }
  }

  lemma NothingProduced(h: Host, g: Generated, text: Text, p: Text)
    requires g.host.pending == h.pending && !Occurs(text, p)
    ensures text + Produced(h, g) == text && OnlyAtEnd(text, p)
  {
  }

  /** A text at an action boundary of the default stop sequences ends with its first closing tag. */
  ghost predicate EndsAtFirstClose(t: Text) {
    && |t| >= 9 && FirstAt(t, CLOSE_TAG, |t| - 9)
    && !Occurs(t, END_OF_TEXT)
  }

  lemma {:induction false} StopsWithMatch(cfg: Config, l: Line, h: Host, budget: nat, text: Text)
    ensures var g := Generate(cfg, l, h, budget, text);
            g.result.Ok? && g.result.value.ActionBoundary? ==>
              var stop := MatchedStop(cfg.stopSequences, g.result.value.generatedText);
              stop.Some? && stop.value.isActionBoundary
    decreases budget
  {
    hide MatchedStop, GenerateNext, Generate;
    var s := GenerateNext(l, h.CancelRead());
    if budget == 0 || h.Cancelled() || !s.result.Ok? || s.result.value.None? {
      StopsNow(cfg, l, h, budget, text);
    } else {
      var t, l', h' := GeneratesOne(cfg, l, h, budget, text);
      if MatchedStop(cfg.stopSequences, text + t.text).None? {
        StopsWithMatch(cfg, l', h', budget - 1, text + t.text);
      }
    }
  }

  /**
    With tokens of at most one byte and the default stop sequences, wherever the generator stops at an
    action boundary the first closing tag of the text is its end, and the text has no `</s>`.
   */
  lemma BoundaryIsFirstClose(cfg: Config, l: Line, h: Host, budget: nat, text: Text)
    requires cfg.stopSequences == DEFAULT_STOPS && AtMostOneByte(h.pending)
    requires !Occurs(text, CLOSE_TAG) && !Occurs(text, END_OF_TEXT)
    ensures var g := Generate(cfg, l, h, budget, text);
            g.result.Ok? && g.result.value.ActionBoundary? ==> EndsAtFirstClose(g.result.value.generatedText)
  {
    hide MatchedStop, Generate, Produced, Occurs, AtMostOneByte;
    var g := Generate(cfg, l, h, budget, text);
    if g.result.Ok? && g.result.value.ActionBoundary? {
      assert DEFAULT_STOPS[0].pattern == CLOSE_TAG && DEFAULT_STOPS[1].pattern == END_OF_TEXT;
      NoStopIsPassed(cfg, l, h, budget, text, 0);
      NoStopIsPassed(cfg, l, h, budget, text, 1);
      StopsWithMatch(cfg, l, h, budget, text);
      ClosesHere(g.result.value.generatedText);
    }
  }

  lemma ClosesHere(t: Text)
    requires MatchedStop(DEFAULT_STOPS, t).Some? && MatchedStop(DEFAULT_STOPS, t).value.isActionBoundary
    requires OnlyAtEnd(t, CLOSE_TAG) && OnlyAtEnd(t, END_OF_TEXT)
    ensures EndsAtFirstClose(t)
  {
    hide MatchedStop;
    DefaultStops(t);
    assert t[|t| - 9..|t|] == t[|t| - 9..];
    if j: nat :| MatchesAt(t, END_OF_TEXT, j) {
      NoEndOfTextInClose(t, j);
    }
  }

  lemma {:induction false} StaysAtMostOneByte(cfg: Config, r: Run, n: nat)
    requires r.line.cachePosition == |r.line.tokens| && AtMostOneByte(r.host.pending)
    ensures var s := AtPass(cfg, r, n);
            s.Some? ==>
              && AtMostOneByte(s.value.host.pending)
              && s.value.line.cachePosition == |s.value.line.tokens|
              && s.value.line.promptEnd == r.line.promptEnd
    decreases n
  {
    hide OnePass, RollbackStep;
    if n > 0 && OnePass(cfg, r).verdict.Again? {
      var g, k, x := LoopingPass(cfg, r);
      KeepsPromptEnd(g, x, OnePass(cfg, r).run);
      StaysAtMostOneByte(cfg, OnePass(cfg, r).run, n - 1);
    }
  }

  lemma KeepsPromptEnd(g: Run, x: Reaction, t: Run)
    requires Reacts(g, x, t) && g.line.cachePosition == |g.line.tokens|
    ensures t.line.promptEnd == g.line.promptEnd && t.host.pending == g.host.pending
  {
    hide RollbackStep;
    if x.Resumed? {
      RollbackBuffer(g.line, RollbackTarget(x.from, |g.line.tokens|), x.obs);
    }
  }

  /** What an intercepted text means for the session. */
  ghost predicate Understood(cfg: Config, r: Run, text: Text) {
    var n := |text| - |CLOSE_TAG|;
    var a := ExtractAction(text, r.line.promptEnd);
    && EndsAtFirstClose(text)
    && (a.None? <==> OpensNothing(text, n))
    && (a.None? <==> Intercept(cfg, r, text) == Pass(r.(events := r.events + [Warning]), Again))
    && (a.Some? ==>
          && a.value.endTokenPos == r.line.promptEnd + |text|
          && Intercept(cfg, r, text) == Execute(cfg, r, a.value))
  }

  lemma BoundaryIsUnderstood(cfg: Config, r: Run, text: Text)
    requires r.line.cachePosition == |r.line.tokens| && EndsAtFirstClose(text)
    ensures Understood(cfg, r, text)
  {
    hide ExtractAction, OnSuccess, OnFault, FirstAt, Trim, TypeOf, Occurs, OpensBefore, OpensNothing;
    var n := |text| - |CLOSE_TAG|;
    BlockAtEnd(text, n, r.line.promptEnd);
    OpensNothingIff(text, n);
    var x := Intercept(cfg, r, text);
    if ExtractAction(text, r.line.promptEnd).Some? && x.verdict.Again? {
      var reaction := InterceptReacts(cfg, r, text);
      ExecutionIsNoWarning(r, reaction, x.run);
    }
  }

  lemma ExecutionIsNoWarning(g: Run, x: Reaction, t: Run)
    requires Reacts(g, x, t) && !x.Warned?
    ensures t.events != g.events + [Warning]
  {
    hide RollbackStep;
    assert t.events[|g.events|] == x.executed;
  }

  /**
    In every pass of every session with tokens of at most one byte and the default stop sequences, an
    intercepted text is what the pass added to the buffer, ends with its first closing tag, and is
    executed as one action that ends with the text; a warning is logged instead if and only if there is
    no `<action`, or no `>` behind the first one, or no body between them and the closing tag.
   */
  lemma EveryBoundaryIsUnderstood(cfg: Config, m: Machine, prompt: seq<Token>, n: nat)
    requires cfg.stopSequences == DEFAULT_STOPS && AtMostOneByte(m.host.pending)
    ensures var s := AtPass(cfg, Prefill(cfg, m, prompt), n);
            s.Some? && !s.value.host.Cancelled() ==>
              var g := Generate(cfg, s.value.line, s.value.host.CancelRead(), cfg.maxTokens, []);
              g.result.Ok? && g.result.value.ActionBoundary? ==>
                var r := s.value.(line := g.line, host := g.host, passes := s.value.passes + 1);
                var text := g.result.value.generatedText;
                && OnePass(cfg, s.value) == Intercept(cfg, r, text)
                && s.value.line.tokens <= r.line.tokens && text == TextOf(r.line.tokens[|s.value.line.tokens|..])
                && r.line.promptEnd == |prompt|
                && Understood(cfg, r, text)
  {
    hide AtPass, Generate, Intercept, Understood, AtMostOneByte, EndsAtFirstClose;
    StaysAtMostOneByte(cfg, Prefill(cfg, m, prompt), n);
    var s := AtPass(cfg, Prefill(cfg, m, prompt), n);
    if s.Some? && !s.value.host.Cancelled() {
      var r, g, k := PassAnatomy(cfg, s.value);
      if g.result.Ok? && g.result.value.ActionBoundary? {
        ShortIsClean([], CLOSE_TAG);
        ShortIsClean([], END_OF_TEXT);
        BoundaryIsFirstClose(cfg, s.value.line, s.value.host.CancelRead(), cfg.maxTokens, []);
        var text := g.result.value.generatedText;
        assert r.line.tokens[|s.value.line.tokens|..] == s.value.host.pending[..k];
        assert [] + TextOf(s.value.host.pending[..k]) == TextOf(s.value.host.pending[..k]);
        BoundaryIsUnderstood(cfg, r, text);
      }
    }
  }

  lemma ShortIsClean(s: Text, p: Text)
    requires |s| < |p|
    ensures !Occurs(s, p)
  {
  }

  lemma NextSucceeds(l: Line, h: Host)
    requires l.tokens != [] && h.pending != [] && NextCallSucceeds(l.ffi)
    ensures var s := GenerateNext(l, h);
            && s.result == Ok(Some(h.pending[0]))
            && s.host == h.(pending := h.pending[1..])
            && s.line.tokens == l.tokens && s.line.ffi == Later(l.ffi)
  {
  }

  /** No reading of the cancel flag is true and no native call fails. */
  ghost predicate Undisturbed(l: Line, h: Host) {
    && (forall i :: 0 <= i < |h.cancels| ==> !h.cancels[i])
    && (forall i :: 0 <= i < |l.ffi| ==> l.ffi[i].None?)
  }

  /** The text of the tokens is an action boundary, and none of its proper token prefixes is a stop. */
  ghost predicate StopsExactlyAtEnd(stops: seq<StopSequence>, tokens: seq<Token>) {
    && (forall k :: 0 <= k < |tokens| ==> MatchedStop(stops, TextOf(tokens[..k])).None?)
    && var s := MatchedStop(stops, TextOf(tokens)); s.Some? && s.value.isActionBoundary
  }

  /** With uncancelled, fault-free generation the generator runs to the first stop. */
  lemma {:induction false} GenerateRunsToStop(cfg: Config, l: Line, h: Host, budget: nat,
                                              before: seq<Token>, todo: seq<Token>, rest: seq<Token>)
    requires l.tokens != [] && todo != [] && h.pending == todo + rest && |todo| <= budget
    requires Undisturbed(l, h)
    requires forall k :: |before| < k < |before + todo| ==>
                           MatchedStop(cfg.stopSequences, TextOf((before + todo)[..k])).None?
    requires var s := MatchedStop(cfg.stopSequences, TextOf(before + todo)); s.Some? && s.value.isActionBoundary
    ensures var g := Generate(cfg, l, h, budget, TextOf(before));
            && g.result == Ok(ActionBoundary(TextOf(before + todo)))
            && g.line.tokens == l.tokens + todo
            && g.host.pending == rest
    decreases |todo|
  {
    hide MatchedStop, GenerateNext, TextOf;
    var t := todo[0];
    var s := GenerateNext(l, h.CancelRead());
    NextSucceeds(l, h.CancelRead());
    assert s.host.pending == todo[1..] + rest;
    TextOfPush(before, t);
    var l', h' := s.line.Push([t]), s.host.Stream(t);
    if |todo| == 1 {
      assert before + todo == before + [t] && todo[1..] + rest == rest && todo == [t];
    } else {
      assert before + [t] + todo[1..] == before + todo;
      assert (before + todo)[..|before| + 1] == before + [t];
      assert l.tokens + [t] + todo[1..] == l.tokens + todo;
      GenerateRunsToStop(cfg, l', h', budget - 1, before + [t], todo[1..], rest);
    }
  }

  /** No proper prefix of a clean rendering ends with one of the default stop sequences. */
  lemma RenderingStopsOnlyAtEnd(prefix: Text, actionType: Text, body: Text, k: nat)
    requires Clean(prefix, actionType, body)
    requires k < |Render(prefix, actionType, body)|
    ensures MatchedStop(DEFAULT_STOPS, Render(prefix, actionType, body)[..k]).None?
    ensures MatchedStop(DEFAULT_STOPS, Render(prefix, actionType, body)) == Some(DEFAULT_STOPS[0])
  {
    hide Render, Clean;
    var text := Render(prefix, actionType, body);
    DefaultStops(text[..k]);
    DefaultStops(text);
    MarkersAtEnd(prefix, actionType, body);
    if k >= 9 {
      PrefixMatch(text, CLOSE_TAG, k);
    }
    if k >= 4 {
      PrefixMatch(text, END_OF_TEXT, k);
    }
  }

  const END_OF_TEXT: Text := "</s>"

  lemma PrefixMatch(text: Text, p: Text, k: nat)
    requires |p| <= k <= |text|
    ensures EndsWith(text[..k], p) <==> MatchesAt(text, p, k - |p|)
  {
    assert text[..k][k - |p|..] == text[k - |p|..k];
  }

  lemma DefaultStops(text: Text)
    ensures MatchedStop(DEFAULT_STOPS, text) ==
            if EndsWith(text, CLOSE_TAG) then Some(DEFAULT_STOPS[0])
            else if EndsWith(text, END_OF_TEXT) then Some(DEFAULT_STOPS[1])
            else None
  {
    hide EndsWith;
    var last := DEFAULT_STOPS[1..];
    assert last == [DEFAULT_STOPS[1]] && last[1..] == [];
    assert DEFAULT_STOPS[0].pattern == CLOSE_TAG && DEFAULT_STOPS[1].pattern == END_OF_TEXT;
    assert MatchedStop(last[1..], text) == None;
    assert MatchedStop(last, text) == if EndsWith(text, END_OF_TEXT) then Some(DEFAULT_STOPS[1]) else None;
  }

  /** The free pieces of a rendering contain no tag and no end-of-text marker. */
  ghost predicate Clean(prefix: Text, actionType: Text, body: Text) {
    && !Occurs(prefix, OPEN_TAG)
    && !Occurs(prefix, CLOSE_TAG) && !Occurs(body, CLOSE_TAG)
    && !Occurs(prefix, END_OF_TEXT) && !Occurs(actionType, END_OF_TEXT) && !Occurs(body, END_OF_TEXT)
    && '>' !in actionType && '"' !in actionType
    && body != []
  }

  lemma MarkersAtEnd(prefix: Text, actionType: Text, body: Text)
    requires Clean(prefix, actionType, body)
    ensures var text := Render(prefix, actionType, body);
            && |text| >= 9 && EndsWith(text, CLOSE_TAG)
            && (forall j: nat :: j < |text| - 9 ==> !MatchesAt(text, CLOSE_TAG, j))
            && (forall j: nat :: j < |text| - 4 ==> !MatchesAt(text, END_OF_TEXT, j))
  {
    var text := Render(prefix, actionType, body);
    FixedPiecesAreFrame();
    ClosesAtEnd(prefix, LEAD, actionType, MID, body, CLOSE_TAG);
    RenderingIsMarked(prefix, actionType, body);
    forall j: nat | j < |text| - 4
      ensures !MatchesAt(text, END_OF_TEXT, j)
    {
      if j < |text| - 9 {
        NoMarkerBeforeClose(prefix, LEAD, actionType, MID, body, CLOSE_TAG, END_OF_TEXT, j);
      } else {
        NoEndOfTextInClose(text, j);
      }
    }
  }

  lemma NoEndOfTextInClose(text: Text, j: nat)
    requires |text| >= 9 && EndsWith(text, CLOSE_TAG) && |text| - 9 <= j <= |text| - 4
    ensures !MatchesAt(text, END_OF_TEXT, j)
  {
    var i := j - (|text| - 9);
    assert text[j] == CLOSE_TAG[i] && text[j + 2] == CLOSE_TAG[i + 2];
    NoMatchByByte(text, END_OF_TEXT, j, if i == 0 then 2 else 0);
  }

  lemma {:induction false} OneBytePrefixes(tokens: seq<Token>, k: nat)
    requires OneByteEach(tokens) && k <= |tokens|
    ensures |TextOf(tokens)| == |tokens| && TextOf(tokens[..k]) == TextOf(tokens)[..k]
  {
    TextIsNoLonger(tokens);
    TextIsNoLonger(tokens[..k]);
    TextOfConcat(tokens[..k], tokens[k..]);
    assert tokens == tokens[..k] + tokens[k..];
  }

  /**
    A model that writes an action one byte per token, under the default stop sequences, is stopped
    exactly behind the closing tag, and the executor receives the type and the trimmed body it wrote.
   */
  lemma RenderedActionIsIntercepted(cfg: Config, l: Line, h: Host, tokens: seq<Token>, rest: seq<Token>,
                                    prefix: Text, actionType: Text, body: Text)
    requires cfg.stopSequences == DEFAULT_STOPS && |tokens| <= cfg.maxTokens
    requires OneByteEach(tokens) && TextOf(tokens) == Render(prefix, actionType, body)
    requires Clean(prefix, actionType, body)
    requires l.tokens != [] && h.pending == tokens + rest
    requires Undisturbed(l, h)
    ensures var g := Generate(cfg, l, h, cfg.maxTokens, []);
            && g.result == Ok(ActionBoundary(TextOf(tokens)))
            && g.line.tokens == l.tokens + tokens
            && g.host.pending == rest
            && ExtractAction(TextOf(tokens), l.promptEnd)
               == Some(ActionPayload(actionType, Trim(body), l.promptEnd + |prefix|, l.promptEnd + |tokens|))
  {
    hide *;
    StopsOnlyAtEnd(tokens, prefix, actionType, body);
    CleanRoundTrip(prefix, actionType, body, l.promptEnd);
    GenerateStopsThere(cfg, l, h, tokens, rest);
  }

  lemma GenerateStopsThere(cfg: Config, l: Line, h: Host, tokens: seq<Token>, rest: seq<Token>)
    requires l.tokens != [] && tokens != [] && h.pending == tokens + rest && |tokens| <= cfg.maxTokens
    requires Undisturbed(l, h)
    requires StopsExactlyAtEnd(cfg.stopSequences, tokens)
    ensures var g := Generate(cfg, l, h, cfg.maxTokens, []);
            && g.result == Ok(ActionBoundary(TextOf(tokens)))
            && g.line.tokens == l.tokens + tokens
            && g.host.pending == rest
  {
    hide MatchedStop, Generate;
    assert [] + tokens == tokens;
    GenerateRunsToStop(cfg, l, h, cfg.maxTokens, [], tokens, rest);
  }

  lemma CleanRoundTrip(prefix: Text, actionType: Text, body: Text, tokenOffset: nat)
    requires Clean(prefix, actionType, body)
    ensures var text := Render(prefix, actionType, body);
            ExtractAction(text, tokenOffset)
            == Some(ActionPayload(actionType, Trim(body), tokenOffset + |prefix|, tokenOffset + |text|))
  {
    hide Render, ExtractAction, Trim;
    RoundTrip(prefix, actionType, body, tokenOffset);
  }

  lemma StopsOnlyAtEnd(tokens: seq<Token>, prefix: Text, actionType: Text, body: Text)
    requires OneByteEach(tokens) && TextOf(tokens) == Render(prefix, actionType, body)
    requires Clean(prefix, actionType, body)
    ensures |tokens| == |TextOf(tokens)| && tokens != []
    ensures StopsExactlyAtEnd(DEFAULT_STOPS, tokens)
  {
    hide Render, MatchedStop, EndsWith;
    OneBytePrefixes(tokens, 0);
    forall k | 0 <= k < |tokens|
      ensures MatchedStop(DEFAULT_STOPS, TextOf(tokens[..k])).None?
    {
      OneBytePrefixes(tokens, k);
      RenderingStopsOnlyAtEnd(prefix, actionType, body, k);
    }
    MarkersAtEnd(prefix, actionType, body);
    RenderingStopsOnlyAtEnd(prefix, actionType, body, 0);
  }
}
