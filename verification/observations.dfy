/** The observations of a session: which survive in the buffer, and which positions they leave uncached. */
module ObservationProperties {
  import opened Wrappers
  import opened Texts
  import opened ActionParser
  import opened KvCache
  import opened FailureHistory
  import opened Engine
  import opened SessionProperties
  import opened Reactions

  /** No rollback after the `i`-th observation reached `position`. */
  ghost predicate Survives(written: seq<Writing>, i: nat, position: nat) {
    forall j :: i < j < |written| && written[j].Rewound? ==> position < written[j].at
  }

  /** The `i`-th observation is a success observation appended right behind `h`, which no rollback reached since. */
  ghost predicate LeavesHole(written: seq<Writing>, i: nat, h: nat) {
    && i < |written|
    && written[i].Appended? && written[i].obs != [] && written[i].at == h + 1
    && Survives(written, i, h)
  }

  lemma SurvivesOneMore(written: seq<Writing>, w: Writing, i: nat, position: nat)
    requires i < |written|
    ensures Survives(written + [w], i, position)
            <==> Survives(written, i, position) && (w.Rewound? ==> position < w.at)
  {
    var all := written + [w];
    assert all[|written|] == w;
    assert forall j :: 0 <= j < |written| ==> all[j] == written[j];
  }

  lemma LeavesHoleOneMore(written: seq<Writing>, w: Writing, i: nat, h: nat)
    requires i <= |written|
    ensures LeavesHole(written + [w], i, h) <==>
            if i < |written| then LeavesHole(written, i, h) && (w.Rewound? ==> h < w.at)
            else w.Appended? && w.obs != [] && w.at == h + 1
  {
    hide Survives;
    if i < |written| {
      SurvivesOneMore(written, w, i, h);
    } else {
      assert Survives(written + [w], i, h) by {
        LastSurvives(written + [w], i, h);
      }
    }
  }

  lemma LastSurvives(written: seq<Writing>, i: nat, position: nat)
    requires i + 1 == |written|
    ensures Survives(written, i, position)
  {
  }

  lemma {:induction false} HoleHasSource(written: seq<Writing>, h: nat) returns (i: nat)
    requires h in Holes(written)
    ensures LeavesHole(written, i, h)
  {
    hide LeavesHole;
    var n := |written| - 1;
    var earlier, w := written[..n], written[n];
    assert written == earlier + [w];
    if w.Appended? && w.obs != [] && w.at == h + 1 {
      i := n;
    } else {
      i := HoleHasSource(earlier, h);
      HoleInside(earlier, i, h);
    }
    LeavesHoleOneMore(earlier, w, i, h);
  }

  lemma {:induction false} SourceLeavesHole(written: seq<Writing>, i: nat, h: nat)
    requires LeavesHole(written, i, h)
    ensures h in Holes(written)
  {
    hide LeavesHole;
    HoleInside(written, i, h);
    var n := |written| - 1;
    var earlier, w := written[..n], written[n];
    assert written == earlier + [w];
    LeavesHoleOneMore(earlier, w, i, h);
    if i < n {
      SourceLeavesHole(earlier, i, h);
    }
  }

  lemma HoleInside(written: seq<Writing>, i: nat, h: nat)
    requires LeavesHole(written, i, h)
    ensures i < |written|
  {
  }

  /** The holes are the positions right before a success observation that no rollback has reached since. */
  lemma HoleIff(written: seq<Writing>, h: nat)
    ensures h in Holes(written) <==> exists i: nat :: LeavesHole(written, i, h)
  {
    hide LeavesHole, Holes;
    if h in Holes(written) {
      var i := HoleHasSource(written, h);
    }
    if i: nat :| LeavesHole(written, i, h) {
      SourceLeavesHole(written, i, h);
    }
  }

  // ------------------------------------------------------------------
  // Where the tokens of observations are
  // ------------------------------------------------------------------

  /** Every token of an observation that no later rollback reached is in the buffer where it was written. */
  ghost predicate InPlace(r: Run) {
    forall i, j :: 0 <= i < |r.written| && 0 <= j < |r.written[i].obs|
                   && Survives(r.written, i, r.written[i].at + j) ==>
                     TokenAt(r.line.tokens, r.written[i].at + j, r.written[i].obs[j])
  }

  predicate TokenAt(tokens: seq<Token>, position: nat, t: Token) {
    position < |tokens| && tokens[position] == t
  }

  lemma GeneratingKeepsInPlace(r: Run, k: nat, g: Run)
    requires InPlace(r) && Generates(r, k, g)
    ensures InPlace(g)
  {
    hide Survives;
    forall i, j | 0 <= i < |g.written| && 0 <= j < |g.written[i].obs|
                  && Survives(g.written, i, g.written[i].at + j)
      ensures TokenAt(g.line.tokens, g.written[i].at + j, g.written[i].obs[j])
    {
      assert TokenAt(r.line.tokens, r.written[i].at + j, r.written[i].obs[j]);
    }
  }

  /** Writing an observation at `cut`, the end of what is kept, leaves the others in place. */
  lemma WritingKeepsInPlace(g: Run, w: Writing, t: Run)
    requires InPlace(g) && t.written == g.written + [w]
    requires w.at <= |g.line.tokens| && (w.Appended? ==> w.at == |g.line.tokens|)
    requires t.line.tokens == g.line.tokens[..w.at] + w.obs
    ensures InPlace(t)
  {
    hide Survives;
    forall i, j | 0 <= i < |t.written| && 0 <= j < |t.written[i].obs|
                  && Survives(t.written, i, t.written[i].at + j)
      ensures TokenAt(t.line.tokens, t.written[i].at + j, t.written[i].obs[j])
    {
      if i < |g.written| {
        assert t.written[i] == g.written[i];
        SurvivesOneMore(g.written, w, i, g.written[i].at + j);
        assert TokenAt(g.line.tokens, g.written[i].at + j, g.written[i].obs[j]);
      }
    }
  }

  // ------------------------------------------------------------------
  // The event log tells which observations were written
  // ------------------------------------------------------------------

  /** One appended observation per success of the log, one rewound per rollback, in the same order. */
  predicate Logged(events: seq<SessionEvent>, written: seq<Writing>) {
    if events == [] then written == []
    else
      var rest, e := events[..|events| - 1], events[|events| - 1];
      if e.Warning? || IsFault(e) then Logged(rest, written)
      else
        && written != []
        && Logged(rest, written[..|written| - 1])
        && var w := written[|written| - 1];
           if e.Rollback? then w.Rewound? && w.at == e.position else w.Appended?
  }

  lemma LogOnce(events: seq<SessionEvent>, written: seq<Writing>, e: SessionEvent, w: Writing)
    requires Logged(events, written)
    ensures e.Warning? || IsFault(e) ==> Logged(events + [e], written)
    ensures IsSuccess(e) && w.Appended? ==> Logged(events + [e], written + [w])
    ensures e.Rollback? && w.Rewound? && w.at == e.position ==> Logged(events + [e], written + [w])
  {
    assert (events + [e])[..|events|] == events;
    assert (written + [w])[..|written|] == written;
  }

  function Successes(events: seq<SessionEvent>): nat {
    if events == [] then 0
    else Successes(events[..|events| - 1]) + if IsSuccess(events[|events| - 1]) then 1 else 0
  }

  lemma {:induction false} HolesAreFew(events: seq<SessionEvent>, written: seq<Writing>)
    requires Logged(events, written)
    ensures |Holes(written)| <= Successes(events)
  {
    if events != [] {
      var rest, e := events[..|events| - 1], events[|events| - 1];
      if e.Warning? || IsFault(e) {
        HolesAreFew(rest, written);
      } else {
        var n := |written| - 1;
        HolesAreFew(rest, written[..n]);
        HolesWithGrows(Holes(written[..n]), written[n]);
      }
    }
  }

  lemma HolesWithGrows(holes: set<nat>, w: Writing)
    ensures |HolesWith(holes, w)| <= |holes| + if w.Appended? then 1 else 0
  {
    if w.Rewound? {
      SubsetIsSmaller(Below(holes, w.at), holes);
    }
  }

  // ------------------------------------------------------------------
  // Whole sessions
  // ------------------------------------------------------------------

  ghost predicate Observing(r: Run) {
    r.line.cachePosition == |r.line.tokens| && InPlace(r) && Logged(r.events, r.written)
  }

  lemma ReactionObserves(g: Run, x: Reaction, t: Run)
    requires Observing(g) && Reacts(g, x, t)
    ensures Observing(t)
  {
    hide RollbackStep, InPlace, Logged;
    var n := |g.line.tokens|;
    match x
    case Warned =>
      LogOnce(g.events, g.written, Warning, Appended(0, []));
      SameInPlace(g, t);
    case Continued(e, obs) =>
      LogOnce(g.events, g.written, e, Appended(n, obs));
      WritingKeepsInPlace(g, Appended(n, obs), t);
    case Resumed(e, from, obs, _) =>
      RollbackBuffer(g.line, RollbackTarget(from, n), obs);
      LogOnce(g.events, g.written, e, Rewound(from, obs));
      LogOnce(g.events + [e], g.written, Rollback(from, n - from, g.retry + 1), Rewound(from, obs));
      WritingKeepsInPlace(g, Rewound(from, obs), t);
  }

  lemma SameInPlace(g: Run, t: Run)
    requires InPlace(g) && t.line == g.line && t.written == g.written
    ensures InPlace(t)
  {
  }

  lemma {:induction false} ObservingFrom(cfg: Config, r: Run, n: nat)
    requires Observing(r)
    ensures var s := AtPass(cfg, r, n);
            s.Some? ==> Observing(s.value)
    decreases n
  {
    hide OnePass, InPlace, Logged, Reacts;
    if n > 0 && OnePass(cfg, r).verdict.Again? {
      var g, k, x := LoopingPass(cfg, r);
      GeneratingKeepsInPlace(r, k, g);
      ReactionObserves(g, x, OnePass(cfg, r).run);
      ObservingFrom(cfg, OnePass(cfg, r).run, n - 1);
    }
  }

  /**
    At every pass of every session the log tells which observations were written, every observation
    token that no later rollback reached is in the buffer where it was written, and there are at most as
    many holes as successes.
   */
  lemma ObservationsSurvive(cfg: Config, m: Machine, prompt: seq<Token>, n: nat)
    ensures var s := AtPass(cfg, Prefill(cfg, m, prompt), n);
            s.Some? ==>
              && Logged(s.value.events, s.value.written)
              && InPlace(s.value)
              && |Holes(s.value.written)| <= Successes(s.value.events)
  {
    hide AtPass, Logged, Holes, Successes;
    var r := Prefill(cfg, m, prompt);
    assert Logged([], []) by {
      NothingLogged();
    }
    ObservingFrom(cfg, r, n);
    var s := AtPass(cfg, r, n);
    if s.Some? {
      HolesAreFew(s.value.events, s.value.written);
    }
  }

  lemma NothingLogged()
    ensures Logged([], [])
  {
  }

  /**
    What is missing from the cache, at every pass of every session that starts with an empty one: apart
    from the last position, a position is uncached if and only if a non-empty success observation was
    appended right behind it and no rollback has reached it since.
   */
  lemma UncachedIff(cfg: Config, m: Machine, prompt: seq<Token>, n: nat, h: nat)
    requires TokenizesToSomething(cfg) && m.cells == map[] && PrefillSucceeds(m, prompt)
    ensures var s := AtPass(cfg, Prefill(cfg, m, prompt), n);
            s.Some? && h + 1 < |s.value.line.tokens| ==>
              (h !in s.value.line.cells <==> exists i: nat :: LeavesHole(s.value.written, i, h))
  {
    hide AtPass, Holes, LeavesHole, Prefill;
    SessionIsCoherent(cfg, m, prompt, n);
    var s := AtPass(cfg, Prefill(cfg, m, prompt), n);
    if s.Some? {
      HoleIff(s.value.written, h);
    }
  }

  // ------------------------------------------------------------------
  // How long observations get
  // ------------------------------------------------------------------

  /** The sandbox reports 32-bit exit codes. */
  ghost predicate AnswersInCodes(outcomes: seq<ActionPayload -> ExecAnswer>) {
    forall i, p :: 0 <= i < |outcomes| ==> HasExitCode(outcomes[i](p))
  }

  predicate HasExitCode(a: ExecAnswer) {
    a.Ran? && a.outcome.Failure? ==> IsExitCode(a.outcome.exitCode)
  }

  ghost predicate Terse(cfg: Config, r: Run) {
    && r.line.cachePosition == |r.line.tokens|
    && AnswersInCodes(r.host.outcomes) && AllCapped(cfg.prevention, r.faults)
  }

  lemma PassIsTerse(cfg: Config, r: Run)
    requires Terse(cfg, r) && OnePass(cfg, r).verdict.Again?
    ensures Terse(cfg, OnePass(cfg, r).run)
  {
    hide OnePass, RollbackStep, ExtractAction, TextOf, Observe;
    var g, k, x := LoopingPass(cfg, r);
    if x.Resumed? {
      var p := ExtractAction(PassText(r, g), r.line.promptEnd).value;
      assert HasExitCode(g.host.Answer(p));
      assert [x.record][0] == x.record;
    }
  }

  lemma {:induction false} TerseFrom(cfg: Config, r: Run, n: nat)
    requires Terse(cfg, r)
    ensures var s := AtPass(cfg, r, n);
            s.Some? ==> AllCapped(cfg.prevention, s.value.faults)
    decreases n
  {
    hide OnePass;
    if n > 0 && OnePass(cfg, r).verdict.Again? {
      PassIsTerse(cfg, r);
      TerseFrom(cfg, OnePass(cfg, r).run, n - 1);
    }
  }

  /**
    However long a session runs and however often a position fails, at every pass the next observation is
    no longer than the current error message plus what the wording and the configured caps allow.
   */
  lemma EveryObservationIsBounded(cfg: Config, m: Machine, prompt: seq<Token>, n: nat,
                                  position: nat, erased: Text, error: Text, exitCode: int)
    requires AnswersInCodes(m.host.outcomes) && IsExitCode(exitCode)
    requires cfg.prevention.enabled && cfg.prevention.maxHistoryPerPosition >= 1
    ensures var s := AtPass(cfg, Prefill(cfg, m, prompt), n);
            s.Some? ==>
              var built := Observe(cfg.wording, s.value.history, cfg.prevention, position, erased, error, exitCode);
              && built.Some?
              && |built.value.text| <= |error| + TextBudget(cfg.wording, cfg.prevention)
  {
    hide AtPass, Observe, TextBudget, Replay;
    var r := Prefill(cfg, m, prompt);
    assert Terse(cfg, r);
    TerseFrom(cfg, r, n);
    SessionIsKept(cfg, m, prompt, n);
    var s := AtPass(cfg, r, n);
    if s.Some? {
      ObservationIsBounded(cfg.wording, s.value.faults, cfg.prevention, position, erased, error, exitCode);
    }
  }

  // ------------------------------------------------------------------
  // What the model and the log are told
  // ------------------------------------------------------------------

  /** The text tells the failure: code and full error first; with history, at the end, what was erased. */
  ghost predicate TellsFailure(cfg: Config, text: Text, erased: Text, error: Text, exitCode: int) {
    var w, p := cfg.wording, cfg.prevention;
    var shown := TruncateTail(erased, p.maxErasedContentBytes);
    && w.error + Decimal(exitCode) + w.message + error + w.newline <= text
    && (p.enabled ==>
          || EndsWith(text, w.previousOutput + shown + w.endQuote)
          || EndsWith(text, w.generated + shown + w.attemptError + Decimal(exitCode)
                            + w.message + TruncateTail(error, p.maxErrorMessageBytes) + w.newline))
  }

  lemma ObservationTells(o: Origin, cfg: Config, g: Run, from: nat, error: Text, exitCode: int,
                         obs: seq<Token>, record: FailureRecord)
    returns (text: Text)
    requires Kept(o, cfg, g) && from <= |g.line.tokens|
    requires FailureShown(cfg, g, from, error, exitCode, obs, record)
    ensures cfg.tokenize(text) == Some(obs)
    ensures TellsFailure(cfg, text, TextOf(g.line.tokens[from..]), error, exitCode)
  {
    hide Observe, Decimal, TruncateTail, EndsWith, TextOf, Accounted, Disciplined, Replay;
    var erased := TextOf(g.line.tokens[from..]);
    var built := Observe(cfg.wording, g.history, cfg.prevention, from, erased, error, exitCode).value;
    text := built.text;
    ObservationShowsError(cfg.wording, g.history, cfg.prevention, from, erased, error, exitCode);
    if cfg.prevention.enabled {
      ObservationShowsErased(cfg.wording, g.history.value, cfg.prevention, from, erased, error, exitCode);
    }
  }

  /**
    In every pass of every session that loops back, the reaction follows from the sandbox's answer to the
    action that the pass generated; and after a failure the model is told its code, its full error and,
    with history, the erased text.
   */
  lemma EveryReactionIsExplained(cfg: Config, m: Machine, prompt: seq<Token>, n: nat)
    returns (g: Run, x: Reaction, told: Text)
    requires AtPass(cfg, Prefill(cfg, m, prompt), n).Some?
    requires OnePass(cfg, AtPass(cfg, Prefill(cfg, m, prompt), n).value).verdict.Again?
    ensures var s := AtPass(cfg, Prefill(cfg, m, prompt), n).value;
            && s.line.tokens <= g.line.tokens && Reacts(g, x, OnePass(cfg, s).run)
            && var action := ExtractAction(PassText(s, g), |prompt|);
               && (x.Warned? <==> action.None?)
               && (!x.Warned? ==> Explains(cfg, g, action.value, x))
               && (x.Resumed? ==>
                     && cfg.tokenize(told) == Some(x.obs)
                     && var outcome := g.host.Answer(action.value).outcome;
                        TellsFailure(cfg, told, TextOf(g.line.tokens[x.from..]),
                                     FaultError(cfg, outcome), FaultCode(outcome)))
  {
    hide AtPass, OnePass, ExtractAction, Reacts, Accounted, Disciplined, Remembered, FailureShown, TellsFailure, TextOf;
    SessionIsKept(cfg, m, prompt, n);
    var s := AtPass(cfg, Prefill(cfg, m, prompt), n).value;
    var o := OriginOf(m, prompt);
    assert s.line.cachePosition == |s.line.tokens| && s.line.promptEnd == |prompt| by {
      KeptIsPositioned(o, cfg, s);
    }
    var k;
    g, k, x := LoopingPass(cfg, s);
    told := [];
    if x.Resumed? {
      var p := ExtractAction(PassText(s, g), |prompt|).value;
      var outcome := g.host.Answer(p).outcome;
      GenerationKeeps(o, cfg, s, g, k);
      told := ObservationTells(o, cfg, g, x.from, FaultError(cfg, outcome), FaultCode(outcome), x.obs, x.record);
    }
  }

  lemma KeptIsPositioned(o: Origin, cfg: Config, r: Run)
    requires Kept(o, cfg, r)
    ensures r.line.cachePosition == |r.line.tokens| && r.line.promptEnd == |o.prompt|
  {
  }
}
