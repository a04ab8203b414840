/** What one pass of the generator produces, streams and reads, and what that means for whole sessions. */
module GenerationProperties {
  import opened Wrappers
  import opened Texts
  import opened ActionParser
  import opened KvCache
  import opened Engine
  import opened SessionProperties
  import opened AnchorProperties
  import opened Boundaries

  // ------------------------------------------------------------------
  // How a call of the generator ends
  // ------------------------------------------------------------------

  /** The text after `k` tokens of this call. */
  function TextAt(h: Host, text: Text, k: nat): Text
    requires k <= |h.pending|
  {
    text + TextOf(h.pending[..k])
  }

  /** The next `k` readings of the cancel flag are false. */
  ghost predicate Uncancelled(h: Host, k: nat) {
    forall j: nat :: j < k && j < |h.cancels| ==> !h.cancels[j]
  }

  /** Reading number `k`, counted from 0, is true. */
  predicate CancelledAt(h: Host, k: nat) {
    k < |h.cancels| && h.cancels[k]
  }

  function Unread(h: Host, k: nat): seq<bool> {
    if k <= |h.cancels| then h.cancels[k..] else []
  }

  /** No stop sequence ends the text after fewer than `k` tokens. */
  ghost predicate QuietBefore(cfg: Config, h: Host, text: Text, k: nat)
    requires k <= |h.pending|
  {
    forall j: nat :: 1 <= j < k ==> MatchedStop(cfg.stopSequences, TextAt(h, text, j)).None?
  }

  /**
    `g` is what a call leaves that generated `k` tokens, with the reason for which it stopped there. The
    flag is read once before each token, and once more when the call ends without matching a stop
    sequence and within its budget.
   */
  ghost predicate EndsAfter(cfg: Config, l: Line, h: Host, budget: nat, text: Text, k: nat, g: Generated) {
    && k <= budget && k <= |h.pending| && Uncancelled(h, k) && QuietBefore(cfg, h, text, k)
    && var stop := if k == 0 then None else MatchedStop(cfg.stopSequences, TextAt(h, text, k));
       match g.result
       case Ok(ActionBoundary(t)) =>
         && t == TextAt(h, text, k)
         && stop.Some? && stop.value.isActionBoundary && g.host.cancels == Unread(h, k)
       case Ok(MaxTokens) => stop.None? && k == budget && g.host.cancels == Unread(h, k)
       case Ok(Terminal) =>
         || (stop.Some? && !stop.value.isActionBoundary && g.host.cancels == Unread(h, k))
         || (stop.None? && k < budget && (CancelledAt(h, k) || k == |h.pending|)
             && g.host.cancels == Unread(h, k + 1))
       case Err(e) =>
         && stop.None? && k < budget && !CancelledAt(h, k) && g.host.cancels == Unread(h, k + 1)
         && e == if l.tokens == [] then EMPTY_STATE else DECODE_FAILED
       case Panic => false
  }

  lemma EndsNow(cfg: Config, l: Line, h: Host, budget: nat, text: Text)
    requires budget == 0 || h.Cancelled() || !GenerateNext(l, h.CancelRead()).result.Ok?
             || GenerateNext(l, h.CancelRead()).result.value.None?
    ensures EndsAfter(cfg, l, h, budget, text, 0, Generate(cfg, l, h, budget, text))
  {
    hide MatchedStop, Write, Decoded;
  }

  lemma TextOneMore(h: Host, h': Host, text: Text, j: nat)
    requires h.pending != [] && h'.pending == h.pending[1..] && j <= |h'.pending|
    ensures TextAt(h', text + h.pending[0].text, j) == TextAt(h, text, j + 1)
  {
    var t, rest := h.pending[0], h'.pending[..j];
    assert h.pending[..j + 1] == [t] + rest;
    TextOfConcat([t], rest);
    TextOfPush([], t);
    assert [] + [t] == [t];
  }

  lemma QuietOneMore(cfg: Config, h: Host, h': Host, text: Text, k: nat)
    requires h.pending != [] && h'.pending == h.pending[1..] && k <= |h'.pending|
    requires QuietBefore(cfg, h', text + h.pending[0].text, k)
    requires k == 0 || MatchedStop(cfg.stopSequences, text + h.pending[0].text).None?
    ensures QuietBefore(cfg, h, text, k + 1)
  {
    hide MatchedStop, TextAt;
    var text' := text + h.pending[0].text;
    forall j: nat | 1 <= j < k + 1
      ensures MatchedStop(cfg.stopSequences, TextAt(h, text, j)).None?
    {
      TextOneMore(h, h', text, j - 1);
      if j == 1 {
        TextAtStart(h', text');
      }
    }
  }

  lemma TextAtStart(h: Host, text: Text)
    ensures TextAt(h, text, 0) == text
  {
  }

  lemma UncancelledOneMore(h: Host, h': Host, k: nat)
    requires !h.Cancelled() && h'.cancels == Later(h.cancels) && Uncancelled(h', k)
    ensures Uncancelled(h, k + 1)
    ensures CancelledAt(h', k) <==> CancelledAt(h, k + 1)
    ensures Unread(h', k) == Unread(h, k + 1) && Unread(h', k + 1) == Unread(h, k + 2)
  {
    forall j: nat | j < k + 1 && j < |h.cancels|
      ensures !h.cancels[j]
    {
      if j > 0 {
        assert h'.cancels[j - 1] == h.cancels[j];
      }
    }
  }

  lemma EndsOneLater(cfg: Config, l: Line, h: Host, budget: nat, text: Text, l': Line, h': Host, k: nat, g: Generated)
    requires budget > 0 && h.pending != [] && !h.Cancelled() && l.tokens != [] && l'.tokens != []
    requires h'.pending == h.pending[1..] && h'.cancels == Later(h.cancels)
    requires MatchedStop(cfg.stopSequences, text + h.pending[0].text).None?
    requires EndsAfter(cfg, l', h', budget - 1, text + h.pending[0].text, k, g)
    ensures EndsAfter(cfg, l, h, budget, text, k + 1, g)
  {
    hide MatchedStop, TextAt, Uncancelled, CancelledAt, Unread, QuietBefore;
    TextOneMore(h, h', text, k);
    QuietOneMore(cfg, h, h', text, k);
    UncancelledOneMore(h, h', k);
    TextAtStart(h', text + h.pending[0].text);
  }

  lemma EndsOnMatch(cfg: Config, l: Line, h: Host, budget: nat, text: Text, g: Generated)
    requires budget > 0 && h.pending != [] && !h.Cancelled()
    requires var t := text + h.pending[0].text;
             var stop := MatchedStop(cfg.stopSequences, t);
             && stop.Some?
             && g.result == Ok(if stop.value.isActionBoundary then ActionBoundary(t) else Terminal)
             && g.host.cancels == Later(h.cancels)
    ensures EndsAfter(cfg, l, h, budget, text, 1, g)
  {
    hide MatchedStop, TextAt, Unread;
    OneToken(h, text);
  }

  lemma OneToken(h: Host, text: Text)
    requires h.pending != []
    ensures TextAt(h, text, 1) == text + h.pending[0].text
    ensures Later(h.cancels) == Unread(h, 1)
  {
    hide TextOf;
    assert h.pending[..1] == [] + [h.pending[0]];
    TextOfPush([], h.pending[0]);
    TextOfNothing();
    assert [] + h.pending[0].text == h.pending[0].text;
  }

  /**
    Every call of the generator ends for one of the reasons of the source, after as many tokens as that
    reason says, and returns what it says.
   */
  lemma {:induction false} GenerateEnds(cfg: Config, l: Line, h: Host, budget: nat, text: Text)
    ensures var g := Generate(cfg, l, h, budget, text);
            EndsAfter(cfg, l, h, budget, text, |h.pending| - |g.host.pending|, g)
    decreases budget
  {
    hide MatchedStop, EndsAfter, GenerateNext, Generate;
    var s := GenerateNext(l, h.CancelRead());
    var g := Generate(cfg, l, h, budget, text);
    if budget == 0 || h.Cancelled() || !s.result.Ok? || s.result.value.None? {
      EndsNow(cfg, l, h, budget, text);
      StopsNow(cfg, l, h, budget, text);
    } else {
      var t, l', h' := GeneratesOne(cfg, l, h, budget, text);
      if MatchedStop(cfg.stopSequences, text + t.text).None? {
        GenerateEnds(cfg, l', h', budget - 1, text + t.text);
        EndsOneLater(cfg, l, h, budget, text, l', h', |h'.pending| - |g.host.pending|, g);
      } else {
        EndsOnMatch(cfg, l, h, budget, text, g);
      }
    }
  }

  // ------------------------------------------------------------------
  // What the caller sees
  // ------------------------------------------------------------------

  /** From `h0` to `h` some tokens were taken from the model, and their texts streamed, one by one, in order. */
  ghost predicate Streams(h0: Host, h: Host) {
    && |h.pending| <= |h0.pending|
    && var k := |h0.pending| - |h.pending|;
       h.pending == h0.pending[k..] && h.streamed == h0.streamed + TextsOf(h0.pending[..k])
  }

  lemma StreamsOn(a: Host, b: Host, c: Host)
    requires Streams(a, b) && Streams(b, c)
    ensures Streams(a, c)
  {
    hide TextsOf;
    var j, k := |a.pending| - |b.pending|, |b.pending| - |c.pending|;
    assert a.pending[..j + k] == a.pending[..j] + b.pending[..k];
    TextsConcat(a.pending[..j], b.pending[..k]);
    assert a.pending[j..][k..] == a.pending[j + k..];
  }

  lemma TextsConcat(a: seq<Token>, b: seq<Token>)
    ensures TextsOf(a + b) == TextsOf(a) + TextsOf(b)
  {
  }

  lemma StreamsNothing(a: Host, b: Host)
    requires a.pending == b.pending && a.streamed == b.streamed
    ensures Streams(a, b)
  {
  }

  lemma PassStreams(cfg: Config, r: Run)
    requires r.line.cachePosition == |r.line.tokens|
    ensures Streams(r.host, OnePass(cfg, r).run.host)
  {
    hide Generate, ExtractAction, OnFault, OnSuccess, Streams;
    if r.host.Cancelled() {
      StreamsNothing(r.host, OnePass(cfg, r).run.host);
    } else {
      var r', g, k := PassAnatomy(cfg, r);
      StreamsNothing(r.host, r.host.CancelRead());
      assert Streams(r.host.CancelRead(), g.host) by {
        MovedStreams(r.line, r.host.CancelRead(), k, g);
      }
      StreamsOn(r.host, r.host.CancelRead(), g.host);
      StreamsNothing(g.host, OnePass(cfg, r).run.host);
      StreamsOn(r.host, g.host, OnePass(cfg, r).run.host);
    }
  }

  lemma MovedStreams(l: Line, h: Host, k: nat, g: Generated)
    requires Moved(l, h, [], k, g)
    ensures Streams(h, g.host)
  {
  }

  lemma AgainIsPositioned(o: Origin, cfg: Config, r: Run)
    requires Kept(o, cfg, r)
    ensures r.line.cachePosition == |r.line.tokens|
    ensures OnePass(cfg, r).verdict.Again? || OnePass(cfg, r).verdict.Done? ==> Kept(o, cfg, OnePass(cfg, r).run)
  {
    hide OnePass, Disciplined, Remembered, BudgetBlown;
    PassKeeps(o, cfg, r);
  }

  lemma {:induction false} LoopStreams(o: Origin, cfg: Config, r: Run)
    requires Kept(o, cfg, r)
    ensures Streams(r.host, Loop(cfg, r).run.host)
    decreases |r.host.pending|
  {
    hide OnePass, Kept, Streams;
    AgainIsPositioned(o, cfg, r);
    PassStreams(cfg, r);
    var p := OnePass(cfg, r);
    if p.verdict.Again? {
      LoopStreams(o, cfg, p.run);
      StreamsOn(r.host, p.run.host, Loop(cfg, p.run).run.host);
    }
  }

  /**
    What the caller sees of any session, however it ends and whatever is rolled back: exactly the texts
    of the tokens taken from the model, one by one and in order, behind what was streamed before.
   */
  lemma SessionStreams(cfg: Config, m: Machine, prompt: seq<Token>)
    ensures var h := Session(cfg, m, prompt).run.host;
            && |h.pending| <= |m.host.pending|
            && var k := |m.host.pending| - |h.pending|;
               h.pending == m.host.pending[k..] && h.streamed == m.host.streamed + TextsOf(m.host.pending[..k])
  {
    hide *;
    var r := Prefill(cfg, m, prompt);
    PrefillIsKept(cfg, m, prompt);
    LoopStreams(OriginOf(m, prompt), cfg, r);
    StreamsNothing(m.host, m.host);
    StreamsMeans(m.host, Session(cfg, m, prompt).run.host);
  }

  lemma StreamsMeans(h0: Host, h: Host)
    requires Streams(h0, h)
    ensures && |h.pending| <= |h0.pending|
            && var k := |h0.pending| - |h.pending|;
               h.pending == h0.pending[k..] && h.streamed == h0.streamed + TextsOf(h0.pending[..k])
  {
  }

  lemma PrefillIsKept(cfg: Config, m: Machine, prompt: seq<Token>)
    ensures Kept(OriginOf(m, prompt), cfg, Prefill(cfg, m, prompt)) && Prefill(cfg, m, prompt).host == m.host
    ensures var h := Session(cfg, m, prompt).run.host;
            h == m.host || h == Loop(cfg, Prefill(cfg, m, prompt)).run.host
  {
    hide Loop, Kept, Write, Decoded;
    StartIsKept(cfg, m, prompt, Prefill(cfg, m, prompt).line);
  }

  // ------------------------------------------------------------------
  // How a session ends
  // ------------------------------------------------------------------

  lemma {:induction false} LoopFromPass(cfg: Config, r: Run, n: nat)
    requires AtPass(cfg, r, n).Some?
    ensures Loop(cfg, AtPass(cfg, r, n).value) == Loop(cfg, r)
    decreases n
  {
    hide OnePass;
    if n > 0 {
      LoopFromPass(cfg, OnePass(cfg, r).run, n - 1);
    }
  }

  /** The pass that starts in `s` is the last one: its generator stops at no action, or fails. */
  lemma LastPass(o: Origin, cfg: Config, s: Run)
    requires Kept(o, cfg, s) && !s.host.Cancelled()
    ensures var g := Generate(cfg, s.line, s.host.CancelRead(), cfg.maxTokens, []);
            && (g.result.Err? ==> Loop(cfg, s).result == Err(g.result.error))
            && (g.result.Ok? && !g.result.value.ActionBoundary? ==>
                  && s.line.tokens <= g.line.tokens && |o.prompt| <= |s.line.tokens|
                  && Loop(cfg, s).result
                     == Ok(InferenceSession(TextOf(g.line.tokens[|o.prompt|..]), |g.line.tokens| - |o.prompt|,
                                            s.rollbackCount, s.totalErased, s.events)))
  {
    hide Generate, Intercept;
    var r', g, k := PassAnatomy(cfg, s);
  }

  /**
    How sessions end: a pass whose generator fails ends the session with that error; one that stops at a
    terminal stop sequence, at the end of the model's tokens, at a cancellation or at the token budget ends
    it with the text behind the prompt, its token count, and the counters and events so far.
   */
  lemma SessionEndsAtPass(cfg: Config, m: Machine, prompt: seq<Token>, n: nat)
    requires PrefillSucceeds(m, prompt)
    ensures var s := AtPass(cfg, Prefill(cfg, m, prompt), n);
            s.Some? && !s.value.host.Cancelled() ==>
              var g := Generate(cfg, s.value.line, s.value.host.CancelRead(), cfg.maxTokens, []);
              && (g.result.Err? ==> Session(cfg, m, prompt).result == Err(g.result.error))
              && (g.result.Ok? && !g.result.value.ActionBoundary? ==>
                    && |prompt| <= |g.line.tokens|
                    && Session(cfg, m, prompt).result
                       == Ok(InferenceSession(TextOf(g.line.tokens[|prompt|..]), |g.line.tokens| - |prompt|,
                                              s.value.rollbackCount, s.value.totalErased, s.value.events)))
  {
    hide AtPass, Generate, Loop, Accounted, Disciplined, Remembered;
    var r := Prefill(cfg, m, prompt);
    StartIsKept(cfg, m, prompt, r.line);
    EveryPassIsKept(OriginOf(m, prompt), cfg, r, n);
    var s := AtPass(cfg, r, n);
    if s.Some? && !s.value.host.Cancelled() {
      LoopFromPass(cfg, r, n);
      LastPass(OriginOf(m, prompt), cfg, s.value);
    }
  }

  // ------------------------------------------------------------------
  // Cancellation
  // ------------------------------------------------------------------

  /** Reading `j` is true: it is the last one taken, `j` tokens are generated at most, and it ends the session well. */
  ghost predicate EndsAtReading(h: Host, j: nat, f: Final) {
    && |f.run.host.cancels| + j + 1 >= |h.cancels|
    && |f.run.host.streamed| <= |h.streamed| + j
    && (|f.run.host.cancels| + j + 1 == |h.cancels| ==> f.result.Ok?)
  }

  lemma CancelledPass(cfg: Config, r: Run, j: nat) returns (read: nat)
    requires CancelledAt(r.host, j) && r.line.cachePosition == |r.line.tokens|
    ensures var p := OnePass(cfg, r);
            && 1 <= read <= j + 1 && p.run.host.cancels == r.host.cancels[read..]
            && |p.run.host.streamed| < |r.host.streamed| + read
            && (read == j + 1 ==> p.verdict.Done?)
  {
    hide Generate, Intercept, EndsAfter;
    if r.host.Cancelled() {
      read := 1;
    } else {
      var r', g, k := PassAnatomy(cfg, r);
      var h := r.host.CancelRead();
      GenerateEnds(cfg, r.line, h, cfg.maxTokens, []);
      assert h.cancels[j - 1];
      read := ReadingsTaken(cfg, r.line, h, k, j - 1, g);
      read := read + 1;
      InterceptKeepsReadings(cfg, r', g.result);
      assert r.host.cancels[1..][read - 1..] == r.host.cancels[read..];
    }
  }

  lemma ReadingsTaken(cfg: Config, l: Line, h: Host, k: nat, j: nat, g: Generated) returns (read: nat)
    requires EndsAfter(cfg, l, h, cfg.maxTokens, [], k, g) && CancelledAt(h, j)
    ensures k <= read <= j + 1 && g.host.cancels == h.cancels[read..]
    ensures read == j + 1 ==> g.result == Ok(Terminal)
  {
    hide MatchedStop, TextAt, QuietBefore;
    read := if g.host.cancels == Unread(h, k) then k else k + 1;
  }

  lemma InterceptKeepsReadings(cfg: Config, r: Run, stop: Fallible<StopResult, InferenceError>)
    ensures var p := AfterGeneration(cfg, r, stop);
            p.run.host.cancels == r.host.cancels && p.run.host.streamed == r.host.streamed
  {
    hide ExtractAction, OnFault, OnSuccess;
  }

  lemma {:induction false} LoopIsCancelled(o: Origin, cfg: Config, r: Run, j: nat)
    requires Kept(o, cfg, r) && CancelledAt(r.host, j)
    ensures EndsAtReading(r.host, j, Loop(cfg, r))
    decreases |r.host.pending|
  {
    hide OnePass, Kept, Summary;
    AgainIsPositioned(o, cfg, r);
    var read := CancelledPass(cfg, r, j);
    var p := OnePass(cfg, r);
    if p.verdict.Again? {
      assert p.run.host.cancels[j - read] == r.host.cancels[j];
      LoopIsCancelled(o, cfg, p.run, j - read);
    } else if p.verdict.Done? {
      KeptSummary(o, cfg, p.run);
    }
  }

  /**
    Cancellation: the flag is read before every pass and before every token. If reading number `j` is
    true, the session takes no reading after it, generates at most `j` tokens, and, when it gets as far as
    that reading, ends with a result rather than an error. If the very first reading is true, nothing is
    generated, executed or logged.
   */
  lemma SessionIsCancelled(cfg: Config, m: Machine, prompt: seq<Token>, j: nat)
    requires CancelledAt(m.host, j)
    ensures var f := Session(cfg, m, prompt);
            && |m.host.cancels| - |f.run.host.cancels| <= j + 1
            && |f.run.host.streamed| - |m.host.streamed| <= j
            && (|m.host.cancels| - |f.run.host.cancels| == j + 1 ==> f.result.Ok?)
    ensures var f := Session(cfg, m, prompt);
            j == 0 && PrefillSucceeds(m, prompt) ==>
              && f.run.host == m.host.CancelRead()
              && f.result == Ok(InferenceSession([], 0, m.rollbackCount, m.totalErased, []))
  {
    hide Loop, OnePass;
    var r := Prefill(cfg, m, prompt);
    StartIsKept(cfg, m, prompt, r.line);
    LoopIsCancelled(OriginOf(m, prompt), cfg, r, j);
    if j == 0 {
      CancelledAtOnce(cfg, r);
    }
  }

  lemma CancelledAtOnce(cfg: Config, r: Run)
    requires CancelledAt(r.host, 0)
    ensures Loop(cfg, r) == Final(r.(host := r.host.CancelRead()), Summary(r))
  {
  }
}
