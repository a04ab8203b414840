/**
  The token buffer, the physical KV cache and the rollback protocol
  (`src/inference/types.rs`, `src/inference/kv_cache.rs`, `src/inference/backend.rs`).
 */
module KvCache {
  import opened Wrappers
  import opened Texts

  datatype Token = Token(id: nat, text: Text)

  /** Why a call failed; the source renders these as messages. */
  datatype Cause =
    | DecodeFailed | EmptyState | TokenizationFailed
    | RemoveFailed | InjectionFailed | InvalidRange | IntoPrompt

  datatype InferenceError =
    | BackendError(cause: Cause)
    | KvCacheError(cause: Cause)
    | RollbackOutOfBounds(position: nat, cacheLen: nat)
    | ExecutionFailed(exitCode: int, stderr: Text)
    | ExecutionTimeout(timeoutMs: nat)
    | MaxRetriesExceeded(maxRetries: nat)
    | NoStopSequence
    | ModelNotLoaded

  /** The text of consecutive tokens. */
  function TextOf(tokens: seq<Token>): Text {
    if tokens == [] then [] else TextOf(tokens[..|tokens| - 1]) + tokens[|tokens| - 1].text
  }

  lemma {:induction false} TextOfConcat(a: seq<Token>, b: seq<Token>)
    ensures TextOf(a + b) == TextOf(a) + TextOf(b)
  {
    hide TextOf;
    if b == [] {
      assert a + b == a;
      TextOfNothing();
    } else {
      var c, t := b[..|b| - 1], b[|b| - 1];
      TextOfConcat(a, c);
      assert a + b == a + c + [t] && b == c + [t];
      TextOfPush(a + c, t);
      TextOfPush(c, t);
    }
  }

  lemma TextOfNothing()
    ensures TextOf([]) == []
  {
  }

  lemma TextOfPush(a: seq<Token>, t: Token)
    ensures TextOf(a + [t]) == TextOf(a) + t.text
  {
    assert (a + [t])[..|a|] == a;
  }

  // ------------------------------------------------------------------
  // The physical cache: which token was decoded at which position
  // ------------------------------------------------------------------

  type Cells = map<nat, Token>

  function Offset(tokens: seq<Token>, position: nat, i: nat): Token
    requires position <= i < position + |tokens|
  {
    tokens[i - position]
  }

  function Write(cells: Cells, position: nat, tokens: seq<Token>): Cells {
    cells + map i: nat | position <= i < position + |tokens| :: Offset(tokens, position, i)
  }

  lemma WriteOneMore(cells: Cells, position: nat, tokens: seq<Token>, i: nat)
    requires i < |tokens|
    ensures Write(cells, position, tokens[..i + 1]) == Write(cells, position, tokens[..i])[position + i := tokens[i]]
  {
  }

  function Erase(cells: Cells, p0: nat, p1: nat): Cells {
    map i | i in cells && !(p0 <= i < p1) :: cells[i]
  }

  /** All tokens but the last: what is decoded ahead of the next generation step. */
  function AllButLast(tokens: seq<Token>): seq<Token> {
    if tokens == [] then [] else tokens[..|tokens| - 1]
  }

  /** The cache after evaluating a prompt into an empty cache. */
  function Prefilled(tokens: seq<Token>): Cells {
    Write(map[], 0, AllButLast(tokens))
  }

  /**
    Answers of the foreign library, in call order; after the last one every call succeeds. A failing
    answer carries how many tokens of its batch a decode call has written all the same.
   */
  type Answers = seq<Option<nat>>

  predicate NextCallSucceeds(ffi: Answers) {
    ffi == [] || ffi[0].None?
  }

  /** The part of a batch that the next decode call writes. */
  function Decoded(ffi: Answers, tokens: seq<Token>): seq<Token> {
    if NextCallSucceeds(ffi) then tokens else tokens[..Min(ffi[0].value, |tokens|)]
  }

  function Later<T>(answers: seq<T>): seq<T> {
    if answers == [] then [] else answers[1..]
  }

  /**
    Everything a rollback reads or changes: the generation state (`tokens`, `promptEnd`,
    `cachePosition`), the physical cache, the length the cache manager keeps on the side
    (`None` for a sequence it has not registered) and the library's answers.
   */
  datatype Line = Line(tokens: seq<Token>, promptEnd: nat, cachePosition: nat,
                       cells: Cells, tracked: Option<nat>, ffi: Answers)
  {
    function Push(ts: seq<Token>): Line {
      if ts == [] then this
      else this.(tokens := tokens + ts, cachePosition := |tokens| + |ts|)
    }

    function Truncate(n: nat): Line {
      this.(tokens := if n <= |tokens| then tokens[..n] else tokens, cachePosition := n)
    }

    function SeqLen(): nat {
      tracked.GetOr(0)
    }
  }

  datatype Step<+T> = Step(line: Line, result: Fallible<T, InferenceError>)

  const DECODE_FAILED: InferenceError := BackendError(DecodeFailed)
  const INJECT_FAILED: InferenceError := KvCacheError(InjectionFailed)
  const REMOVE_FAILED: InferenceError := KvCacheError(RemoveFailed)
  const INVALID_RANGE: InferenceError := KvCacheError(InvalidRange)
  const INTO_PROMPT: InferenceError := KvCacheError(IntoPrompt)

  /** `evaluate_tokens`: decode `tokens` at `position`, `position + 1`, ... */
  function EvaluateStep(l: Line, position: nat, tokens: seq<Token>): Step<()> {
    if tokens == [] then Step(l, Ok(()))
    else
      Step(l.(cells := Write(l.cells, position, Decoded(l.ffi, tokens)), ffi := Later(l.ffi)),
           if NextCallSucceeds(l.ffi) then Ok(()) else Err(DECODE_FAILED))
  }

  function Less(a: nat, b: nat): nat {
    if b <= a then a - b else 0
  }

  function Min(a: nat, b: nat): nat {
    if a <= b then a else b
  }

  /** `LlamaCppKvCache::seq_rm`. */
  function SeqRmStep(l: Line, p0: nat, p1: nat): Step<()> {
    if NextCallSucceeds(l.ffi) then
      var tracked := if l.tracked.Some? then Some(Less(l.tracked.value, Less(p1, p0))) else None;
      Step(l.(cells := Erase(l.cells, p0, p1), ffi := Later(l.ffi), tracked := tracked), Ok(()))
    else
      Step(l.(ffi := Later(l.ffi)), Err(REMOVE_FAILED))
  }

  /** `LlamaCppKvCache::inject_tokens`: decodes all but the last token. */
  function InjectStep(l: Line, position: nat, tokens: seq<Token>): Step<()> {
    var prefill := AllButLast(tokens);
    var growth := if prefill == [] then |tokens| else |prefill|;
    var tracked := if l.tracked.Some? then Some(l.tracked.value + growth) else None;
    if prefill == [] then Step(l.(tracked := tracked), Ok(()))
    else if NextCallSucceeds(l.ffi) then
      Step(l.(cells := Write(l.cells, position, prefill), ffi := Later(l.ffi), tracked := tracked), Ok(()))
    else
      Step(l.(cells := Write(l.cells, position, Decoded(l.ffi, prefill)), ffi := Later(l.ffi)), Err(INJECT_FAILED))
  }

  datatype RollbackTarget = RollbackTarget(from: nat, to: nat) {
    function ErasedCount(): nat {
      Less(to, from)
    }
  }

  /** `validate_rollback`: `None` when a rollback may be attempted. */
  function ValidateRollback(l: Line, target: RollbackTarget): Option<InferenceError> {
    if target.from >= target.to then Some(INVALID_RANGE)
    else if target.to > l.SeqLen() then Some(RollbackOutOfBounds(target.to, l.SeqLen()))
    else if target.from < l.promptEnd then Some(INTO_PROMPT)
    else None
  }

  /** The rollback protocol: check, erase, truncate, inject, append. */
  function RollbackStep(l: Line, target: RollbackTarget, observation: seq<Token>): (s: Step<nat>)
    ensures s.result.Ok? ==> s.result.value == target.ErasedCount()
  {
    if target.from >= target.to then Step(l, Err(INVALID_RANGE))
    else if target.to > l.SeqLen() then Step(l, Err(RollbackOutOfBounds(target.to, l.SeqLen())))
    else if target.from < l.promptEnd then Step(l, Err(INTO_PROMPT))
    else
      var removed := SeqRmStep(l, target.from, target.to);
      if !removed.result.Ok? then Step(removed.line, Err(REMOVE_FAILED))
      else
        var truncated := removed.line.Truncate(target.from);
        if observation == [] then Step(truncated, Ok(target.ErasedCount()))
        else
          var injected := InjectStep(truncated, target.from, observation);
          if !injected.result.Ok? then Step(injected.line, Err(INJECT_FAILED))
          else Step(injected.line.Push(observation), Ok(target.ErasedCount()))
  }

  // ------------------------------------------------------------------
  // Coherence of buffer and cache
  // ------------------------------------------------------------------

  /**
    The state in which generation may resume: the cache holds exactly the tokens of the buffer,
    except the last one (decoded by the next step) and except `holes`, none of which is in the prompt.
   */
  ghost predicate Coherent(l: Line, holes: set<nat>) {
    && l.cachePosition == |l.tokens|
    && l.promptEnd <= |l.tokens|
    && (forall h :: h in holes ==> l.promptEnd <= h && h + 1 < |l.tokens|)
    && CachedExactly(l.tokens, l.cells, |l.tokens| - 1, holes)
  }

  /** The cached positions are those below `n` outside `holes`, each with its own token. */
  ghost predicate CachedExactly(tokens: seq<Token>, cells: Cells, n: int, holes: set<nat>) {
    && n <= |tokens|
    && (forall i: nat :: i in cells <==> i < n && i !in holes)
    && (forall i: nat :: i in cells ==> cells[i] == tokens[i])
  }

  function Below(holes: set<nat>, k: nat): set<nat> {
    set h | h in holes && h < k
  }

  /** Prefilling the prompt into an empty cache gives a coherent state without holes. */
  lemma PrefillIsCoherent(l: Line)
    requires l.cachePosition == l.promptEnd == |l.tokens|
    requires l.cells == Prefilled(l.tokens)
    ensures Coherent(l, {})
  {
  }

  /** Decoding the last token, then appending the sampled one, keeps a coherent state coherent. */
  lemma GenerateKeepsCoherence(l: Line, holes: set<nat>, t: Token)
    requires Coherent(l, holes) && l.tokens != []
    ensures var d := EvaluateStep(l, l.cachePosition - 1, [l.tokens[|l.tokens| - 1]]);
            && l.cachePosition - 1 !in l.cells
            && (d.result.Ok? ==> CachedExactly(d.line.tokens, d.line.cells, |l.tokens|, holes))
            && (d.result.Ok? ==> Coherent(d.line.Push([t]), holes))
  {
    hide Write, Decoded;
    var n := |l.tokens| - 1;
    var d := EvaluateStep(l, n, [l.tokens[n]]);
    DecodeOne(l, n, l.tokens[n]);
    var p := d.line.Push([t]);
    assert forall i: nat :: i <= n ==> p.tokens[i] == l.tokens[i];
  }

  lemma DecodeOne(l: Line, position: nat, t: Token)
    ensures var d := EvaluateStep(l, position, [t]);
            d.result.Ok? ==> d.line == l.(cells := l.cells[position := t], ffi := Later(l.ffi))
  {
    assert Write(l.cells, position, [t]) == l.cells[position := t];
  }

  /**
    A success observation is appended and all but its last token decoded. The token generated
    last was never decoded, so its position becomes a hole exactly when the observation is non-empty.
   */
  lemma ObservationLeavesOneHole(l: Line, holes: set<nat>, obs: seq<Token>)
    requires Coherent(l, holes) && l.promptEnd < |l.tokens|
    ensures var p := l.Push(obs);
            var e := EvaluateStep(p, p.cachePosition - |obs|, AllButLast(obs));
            && (e.result.Ok? ==> Coherent(e.line, if obs == [] then holes else holes + {|l.tokens| - 1}))
  {
    hide Write, CachedExactly;
    if obs != [] {
      AppendAfterGap(l.tokens, l.cells, holes, obs);
      var n := |l.tokens|;
      var e := EvaluateStep(l.Push(obs), n, AllButLast(obs));
      assert e.result.Ok? ==> e.line.cells == Write(l.cells, n, AllButLast(obs)) by {
        NothingToWrite(l.cells, n, AllButLast(obs));
      }
    }
  }

  lemma NothingToWrite(cells: Cells, position: nat, tokens: seq<Token>)
    ensures tokens == [] ==> Write(cells, position, tokens) == cells
  {
  }

  /** Appending behind the last, never decoded token leaves a hole at its position. */
  lemma AppendAfterGap(tokens: seq<Token>, cells: Cells, holes: set<nat>, obs: seq<Token>)
    requires tokens != [] && obs != []
    requires CachedExactly(tokens, cells, |tokens| - 1, holes)
    requires forall h :: h in holes ==> h + 1 < |tokens|
    ensures CachedExactly(tokens + obs, Write(cells, |tokens|, AllButLast(obs)), |tokens + obs| - 1,
                          holes + {|tokens| - 1})
  {
    var n := |tokens|;
    Splice(tokens, cells, n, holes + {n - 1}, obs);
    assert tokens[..n] == tokens;
    assert Below(holes + {n - 1}, n) == holes + {n - 1};
  }

  /** Cutting the buffer at `k` and continuing with `obs`, all but its last token decoded. */
  lemma Splice(tokens: seq<Token>, cells: Cells, k: nat, holes: set<nat>, obs: seq<Token>)
    requires k <= |tokens| && obs != []
    requires CachedExactly(tokens, cells, k, holes)
    ensures var tokens' := tokens[..k] + obs;
            CachedExactly(tokens', Write(cells, k, AllButLast(obs)), |tokens'| - 1, Below(holes, k))
  {
    var tokens' := tokens[..k] + obs;
    assert forall i: nat :: i < k ==> tokens'[i] == tokens[i];
    assert forall i: nat :: k <= i < |tokens'| ==> tokens'[i] == obs[i - k];
  }

  /** The buffer after a successful rollback. */
  lemma RollbackBuffer(l: Line, target: RollbackTarget, obs: seq<Token>)
    requires RollbackStep(l, target, obs).result.Ok?
    requires target.to == l.cachePosition == |l.tokens|
    ensures var r := RollbackStep(l, target, obs).line;
            && r.tokens == l.tokens[..target.from] + obs
            && r.cachePosition == |r.tokens|
            && r.promptEnd == l.promptEnd <= target.from < target.to
  {
    hide Write, Erase;
  }

  /** What a successful rollback with a non-empty observation leaves behind. */
  lemma RollbackEffect(l: Line, target: RollbackTarget, obs: seq<Token>)
    requires RollbackStep(l, target, obs).result.Ok? && obs != []
    requires target.to == l.cachePosition == |l.tokens|
    ensures var r := RollbackStep(l, target, obs);
            && r.result.value == target.to - target.from
            && r.line.tokens == l.tokens[..target.from] + obs
            && r.line.cachePosition == |r.line.tokens|
            && r.line.promptEnd == l.promptEnd <= target.from < target.to
            && r.line.cells == Write(Erase(l.cells, target.from, target.to), target.from, AllButLast(obs))
  {
    var cells := Erase(l.cells, target.from, target.to);
    assert AllButLast(obs) == [] ==> Write(cells, target.from, AllButLast(obs)) == cells;
  }

  /** A successful rollback restores coherence and removes every hole at or after the anchor. */
  lemma RollbackKeepsCoherence(l: Line, holes: set<nat>, target: RollbackTarget, obs: seq<Token>)
    requires Coherent(l, holes)
    requires RollbackStep(l, target, obs).result.Ok? && obs != []
    requires target.to == l.cachePosition
    ensures Coherent(RollbackStep(l, target, obs).line, Below(holes, target.from))
  {
    RollbackEffect(l, target, obs);
    var cells, k := Erase(l.cells, target.from, target.to), target.from;
    assert CachedExactly(l.tokens, cells, k, Below(holes, k));
    Splice(l.tokens, cells, k, Below(holes, k), obs);
    assert Below(Below(holes, k), k) == Below(holes, k);
  }

  /**
    Time travel equals reprompting. After a successful rollback to `k` the buffer is
    `tokens[..k] ++ observation`, and the cache is the one obtained by prefilling that buffer into
    an empty cache, minus the holes below `k`; it is that very cache exactly when there is none.
   */
  lemma TimeTravelEqualsReprompting(l: Line, holes: set<nat>, target: RollbackTarget, obs: seq<Token>)
    requires Coherent(l, holes)
    requires RollbackStep(l, target, obs).result.Ok? && obs != []
    requires target.to == l.cachePosition
    ensures var r := RollbackStep(l, target, obs).line;
            && r.tokens == l.tokens[..target.from] + obs
            && r.cells == Prefilled(r.tokens) - Below(holes, target.from)
            && (r.cells == Prefilled(r.tokens) <==> Below(holes, target.from) == {})
  {
    RollbackEffect(l, target, obs);
    RollbackKeepsCoherence(l, holes, target, obs);
    var r := RollbackStep(l, target, obs).line;
    PrefilledMinusHoles(r.tokens, r.cells, Below(holes, target.from));
  }

  lemma PrefilledMinusHoles(tokens: seq<Token>, cells: Cells, holes: set<nat>)
    requires CachedExactly(tokens, cells, |tokens| - 1, holes)
    requires forall h :: h in holes ==> h + 1 < |tokens|
    ensures cells == Prefilled(tokens) - holes
    ensures cells == Prefilled(tokens) <==> holes == {}
  {
    var full := Prefilled(tokens);
    assert forall i: nat :: i in full <==> i + 1 < |tokens|;
    assert cells == full - holes;
    if h :| h in holes {
      assert h in full && h !in cells;
    }
  }

  /**
    With an empty observation the last surviving token stays cached, so the next step decodes that
    position a second time: coherence survives exactly when the position before the anchor is a hole.
   */
  lemma EmptyObservationRollback(l: Line, holes: set<nat>, target: RollbackTarget)
    requires Coherent(l, holes)
    requires RollbackStep(l, target, []).result.Ok?
    requires target.to == l.cachePosition
    ensures var r := RollbackStep(l, target, []).line;
            && r.tokens == l.tokens[..target.from]
            && CachedExactly(r.tokens, r.cells, target.from, Below(holes, target.from))
            && ((exists hs :: Coherent(r, hs)) <==> target.from == 0 || target.from - 1 in holes)
  {
    var r, k := RollbackStep(l, target, []).line, target.from;
    assert r.tokens == l.tokens[..k];
    assert forall i: nat :: i < k ==> r.tokens[i] == l.tokens[i];
    if k == 0 || k - 1 in holes {
      assert Coherent(r, set h | h in holes && h + 1 < k);
    }
    if hs :| Coherent(r, hs) && k > 0 {
      assert k - 1 !in r.cells;
    }
  }

  /** Exactly which rollbacks succeed. The three checks are those of `validate_rollback`. */
  lemma RollbackSucceedsIff(l: Line, target: RollbackTarget, obs: seq<Token>)
    ensures RollbackStep(l, target, obs).result.Ok? <==>
            && ValidateRollback(l, target).None?
            && NextCallSucceeds(l.ffi)
            && (|obs| >= 2 ==> NextCallSucceeds(Later(l.ffi)))
    ensures ValidateRollback(l, target).Some? ==>
              RollbackStep(l, target, obs) == Step(l, Err(ValidateRollback(l, target).value))
  {
  }

  /** What a refused rollback reports, and when: the three guards exclude one another in this order. */
  lemma RefusalIff(l: Line, target: RollbackTarget, obs: seq<Token>, e: InferenceError)
    requires e == INVALID_RANGE || e == INTO_PROMPT || e.RollbackOutOfBounds?
    ensures RollbackStep(l, target, obs).result == Err(e) <==>
            if target.to <= target.from then e == INVALID_RANGE
            else if l.tracked.GetOr(0) < target.to then e == RollbackOutOfBounds(target.to, l.tracked.GetOr(0))
            else target.from < l.promptEnd && e == INTO_PROMPT
    ensures RollbackStep(l, target, obs).result == Err(e) ==> RollbackStep(l, target, obs).line == l
  {
  }

  /**
    Rollback is not atomic. A failed one changes nothing when it is refused or cannot erase; when the
    injection fails, the buffer is already cut and the cache erased, with part of the observation at most.
   */
  lemma FailedRollbackLeaves(l: Line, target: RollbackTarget, obs: seq<Token>)
    requires !RollbackStep(l, target, obs).result.Ok?
    requires target.from <= |l.tokens|
    ensures var r := RollbackStep(l, target, obs);
            && !r.result.Panic?
            && (r.result.error != INJECT_FAILED ==> r.line == l.(ffi := r.line.ffi))
            && (r.result.error == INJECT_FAILED ==>
                  && r.line.tokens == l.tokens[..target.from] && r.line.cachePosition == target.from
                  && r.line.cells == Write(Erase(l.cells, target.from, target.to), target.from,
                                           Decoded(Later(l.ffi), AllButLast(obs))))
            && (r.result.error == INJECT_FAILED <==>
                  && ValidateRollback(l, target).None?
                  && NextCallSucceeds(l.ffi) && |obs| >= 2 && !NextCallSucceeds(Later(l.ffi)))
  {
  }

  /**
    The tracked length moves only in rollbacks: a rollback never raises its lead over the buffer,
    and an observation of two or more tokens lowers it by one.
   */
  lemma RollbackLead(l: Line, target: RollbackTarget, obs: seq<Token>)
    requires RollbackStep(l, target, obs).result.Ok?
    requires target.to == l.cachePosition == |l.tokens|
    requires l.tracked.Some?
    ensures var r := RollbackStep(l, target, obs).line;
            && r.tracked.Some?
            && r.tracked.value - |r.tokens|
               == l.tracked.value - |l.tokens| - (if |obs| >= 2 then 1 else 0)
  {
  }

  // ------------------------------------------------------------------
  // The mutable objects
  // ------------------------------------------------------------------

  class GenerationState {
    var tokens: seq<Token>
    const promptEnd: nat
    var cachePosition: nat

    constructor (promptTokens: seq<Token>)
      ensures tokens == promptTokens && promptEnd == cachePosition == |promptTokens|
    {
      tokens := promptTokens;
      promptEnd := |promptTokens|;
      cachePosition := |promptTokens|;
    }

    method PushToken(t: Token)
      modifies this
      ensures tokens == old(tokens) + [t] && cachePosition == |tokens|
    {
      tokens := tokens + [t];
      cachePosition := |tokens|;
    }

    method PushAll(ts: seq<Token>)
      modifies this
      ensures tokens == old(tokens) + ts
      ensures cachePosition == if ts == [] then old(cachePosition) else |tokens|
    {
      for i := 0 to |ts|
        invariant tokens == old(tokens) + ts[..i]
        invariant cachePosition == if i == 0 then old(cachePosition) else |tokens|
      {
        PushToken(ts[i]);
        assert ts[..i + 1] == ts[..i] + [ts[i]];
      }
      assert ts[..|ts|] == ts;
    }

    function GeneratedCount(): nat
      reads this
    {
      Less(|tokens|, promptEnd)
    }
  }

  /** The library context: one sequence of cells, shared by the backend and the cache manager. */
  class LlamaContext {
    var cells: Cells
    var ffi: Answers

    method Answer() returns (failure: Option<nat>)
      modifies this`ffi
      ensures failure == (if NextCallSucceeds(old(ffi)) then None else old(ffi)[0]) && ffi == Later(old(ffi))
    {
      failure := if ffi == [] then None else ffi[0];
      ffi := if ffi == [] then [] else ffi[1..];
    }

    /** `llama_decode` on a batch at consecutive positions. */
    method Decode(position: nat, tokens: seq<Token>) returns (ok: bool)
      modifies this
      ensures ok == NextCallSucceeds(old(ffi)) && ffi == Later(old(ffi))
      ensures cells == Write(old(cells), position, Decoded(old(ffi), tokens))
    {
      var failure := Answer();
      ok := failure.None?;
      var n := if ok || failure.value > |tokens| then |tokens| else failure.value;
      NothingToWrite(cells, position, tokens[..0]);
      for i := 0 to n
        invariant cells == Write(old(cells), position, tokens[..i])
        invariant ffi == Later(old(ffi))
      {
        WriteOneMore(old(cells), position, tokens, i);
        cells := cells[position + i := tokens[i]];
      }
      assert tokens[..|tokens|] == tokens;
    }

    /** `llama_memory_seq_rm`. */
    method Remove(p0: nat, p1: nat) returns (ok: bool)
      modifies this
      ensures ok == NextCallSucceeds(old(ffi)) && ffi == Later(old(ffi))
      ensures cells == if ok then Erase(old(cells), p0, p1) else old(cells)
    {
      var failure := Answer();
      ok := failure.None?;
      if ok {
        cells := map i | i in cells && !(p0 <= i < p1) :: cells[i];
      }
    }
  }

  /** `LlamaCppKvCache`, for the one sequence a session uses. */
  class LlamaCppKvCache {
    const ctx: LlamaContext
    var seqPosition: Option<nat>

    constructor (ctx: LlamaContext, initialPosition: nat)
      ensures this.ctx == ctx && seqPosition == Some(initialPosition)
    {
      this.ctx := ctx;
      seqPosition := Some(initialPosition);
    }

    ghost function LineOf(state: GenerationState): Line
      reads this, ctx, state
    {
      Line(state.tokens, state.promptEnd, state.cachePosition, ctx.cells, seqPosition, ctx.ffi)
    }

    method SeqRm(p0: nat, p1: nat, ghost state: GenerationState) returns (r: Fallible<(), InferenceError>)
      modifies this, ctx
      ensures Step(LineOf(state), r) == SeqRmStep(old(LineOf(state)), p0, p1)
    {
      var ok := ctx.Remove(p0, p1);
      if !ok {
        return Err(REMOVE_FAILED);
      }
      if seqPosition.Some? {
        var erased := if p0 <= p1 then p1 - p0 else 0;
        seqPosition := Some(if erased <= seqPosition.value then seqPosition.value - erased else 0);
      }
      return Ok(());
    }

    method SeqLen() returns (n: nat)
      ensures n == seqPosition.GetOr(0)
    {
      n := if seqPosition.Some? then seqPosition.value else 0;
    }

    method InjectTokens(position: nat, tokens: seq<Token>, ghost state: GenerationState)
      returns (r: Fallible<(), InferenceError>)
      modifies this, ctx
      ensures Step(LineOf(state), r) == InjectStep(old(LineOf(state)), position, tokens)
    {
      var prefillLen := if |tokens| == 0 then 0 else |tokens| - 1;
      if prefillLen == 0 {
        if seqPosition.Some? {
          seqPosition := Some(seqPosition.value + if |tokens| < 1 then |tokens| else 1);
        }
        return Ok(());
      }
      var ok := ctx.Decode(position, tokens[..prefillLen]);
      if !ok {
        return Err(INJECT_FAILED);
      }
      if seqPosition.Some? {
        seqPosition := Some(seqPosition.value + prefillLen);
      }
      return Ok(());
    }
  }

  class KvCacheController {
    const manager: LlamaCppKvCache
    var rollbackCount: nat
    var totalTokensErased: nat

    constructor (manager: LlamaCppKvCache)
      ensures this.manager == manager && rollbackCount == totalTokensErased == 0
    {
      this.manager := manager;
      rollbackCount, totalTokensErased := 0, 0;
    }

    method Rollback(state: GenerationState, target: RollbackTarget, observation: seq<Token>)
      returns (r: Fallible<nat, InferenceError>)
      modifies this, state, manager, manager.ctx
      ensures Step(manager.LineOf(state), r) == RollbackStep(old(manager.LineOf(state)), target, observation)
      ensures rollbackCount == old(rollbackCount) + if r.Ok? then 1 else 0
      ensures totalTokensErased == old(totalTokensErased) + if r.Ok? then target.ErasedCount() else 0
    {
      if target.from >= target.to {
        return Err(INVALID_RANGE);
      }
      var cacheLen := manager.SeqLen();
      if target.to > cacheLen {
        return Err(RollbackOutOfBounds(target.to, cacheLen));
      }
      if target.from < state.promptEnd {
        return Err(INTO_PROMPT);
      }
      var erased := target.ErasedCount();

      var removed := manager.SeqRm(target.from, target.to, state);
      if !removed.Ok? {
        return Err(REMOVE_FAILED);
      }

      if target.from <= |state.tokens| {
        state.tokens := state.tokens[..target.from];
      }
      state.cachePosition := target.from;

      if observation != [] {
        var injected := manager.InjectTokens(target.from, observation, state);
        if !injected.Ok? {
          return Err(INJECT_FAILED);
        }
        state.PushAll(observation);
      }

      rollbackCount := rollbackCount + 1;
      totalTokensErased := totalTokensErased + erased;
      return Ok(erased);
    }

    method Validate(state: GenerationState, target: RollbackTarget) returns (e: Option<InferenceError>)
      ensures e == ValidateRollback(manager.LineOf(state), target)
    {
      if target.from >= target.to {
        return Some(INVALID_RANGE);
      }
      var cacheLen := manager.SeqLen();
      if target.to > cacheLen {
        return Some(RollbackOutOfBounds(target.to, cacheLen));
      }
      if target.from < state.promptEnd {
        return Some(INTO_PROMPT);
      }
      return None;
    }
  }
}
