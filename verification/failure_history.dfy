/** Per-position failure history and the observation built from it (`src/inference/engine.rs`). */
module FailureHistory {
  import opened Wrappers
  import opened Texts

  datatype Prevention = Prevention(enabled: bool, maxHistoryPerPosition: nat,
                                   maxErasedContentBytes: nat, maxErrorMessageBytes: nat)

  datatype FailureRecord = FailureRecord(erasedContent: Text, errorMessage: Text, exitCode: int)

  type History = map<nat, seq<FailureRecord>>

  /** `FailureRecord::new`. */
  function MakeRecord(p: Prevention, erased: Text, error: Text, exitCode: int): FailureRecord {
    FailureRecord(TruncateTail(erased, p.maxErasedContentBytes),
                  TruncateTail(error, p.maxErrorMessageBytes), exitCode)
  }

  function RecordsAt(h: History, position: nat): seq<FailureRecord> {
    if position in h then h[position] else []
  }

  /** Append a record, dropping the oldest at the cap; `None` when `remove(0)` panics on an empty list. */
  function Remember(h: History, position: nat, record: FailureRecord, cap: nat): Option<History> {
    var records := RecordsAt(h, position);
    if |records| < cap then Some(h[position := records + [record]])
    else if records == [] then None
    else Some(h[position := records[1..] + [record]])
  }

  /** The fixed fragments of the engine's observations. The proofs hold for any wording. */
  datatype Phrases = Phrases(
    error: Text, message: Text, newline: Text,
    previousOutput: Text, endQuote: Text,
    failed: Text, times: Text,
    attempt: Text, generated: Text, attemptError: Text,
    succeeded: Text, timedOut: Text, milliseconds: Text)
  {
    function PlainObservation(errorText: Text, exitCode: int): Text {
      error + Decimal(exitCode) + message + errorText + newline
    }

    function FirstFailure(errorText: Text, exitCode: int, content: Text): Text {
      PlainObservation(errorText, exitCode) + previousOutput + content + endQuote
    }

    function RepeatedHeader(errorText: Text, exitCode: int, attempts: nat): Text {
      PlainObservation(errorText, exitCode) + failed + Decimal(attempts) + times
    }

    function AttemptLine(number: nat, r: FailureRecord): Text {
      attempt + Decimal(number) + generated + r.erasedContent + attemptError
      + Decimal(r.exitCode) + message + r.errorMessage + newline
    }

    function Listing(records: seq<FailureRecord>): Text {
      if records == [] then []
      else Listing(records[..|records| - 1]) + AttemptLine(|records|, records[|records| - 1])
    }

    function Success(stdout: Text): Text {
      succeeded + stdout + newline
    }

    function TimeoutError(timeoutMs: nat): Text {
      timedOut + Decimal(timeoutMs) + milliseconds
    }
  }

  /** The wording of the source. The quotes are U+00AB and U+00BB, the arrow U+2192, in UTF-8. */
  const ENGLISH := Phrases(
    "\nObservation: Error (exit_code=", "): ", "\n",
    "Your previous output was: \U{C2}\U{AB}", "\U{C2}\U{BB}\n",
    "[!] This position has failed ",
    " time(s). You MUST use a substantially different approach.\nPrevious failed attempts:\n",
    "  [Attempt ", "] Generated: \U{C2}\U{AB}", "\U{C2}\U{BB} \U{E2}\U{86}\U{92} Error (exit_code=",
    "\nObservation: Action succeeded.\n", "Execution timed out after ", "ms")

  datatype Built = Built(history: Option<History>, text: Text)

  /** `build_observation`; `None` when it panics. */
  function Observe(w: Phrases, history: Option<History>, p: Prevention, position: nat,
                   erased: Text, error: Text, exitCode: int): Option<Built>
  {
    if history.None? then Some(Built(None, w.PlainObservation(error, exitCode)))
    else
      var h :- Remember(history.value, position, MakeRecord(p, erased, error, exitCode), p.maxHistoryPerPosition);
      var records := RecordsAt(h, position);
      Some(Built(Some(h),
                 if |records| <= 1 then
                   w.FirstFailure(error, exitCode, TruncateTail(erased, p.maxErasedContentBytes))
                 else
                   w.RepeatedHeader(error, exitCode, |records|) + w.Listing(records)))
  }

  /** The log of a session, the receiver of `&mut failure_history`. */
  class FailureLog {
    var history: Option<History>

    constructor (p: Prevention)
      ensures history == if p.enabled then Some(map[]) else None
    {
      history := if p.enabled then Some(map[]) else None;
    }

    method BuildObservation(w: Phrases, p: Prevention, position: nat, erased: Text, error: Text, exitCode: int)
      returns (obs: Option<Text>)
      modifies this
      ensures var built := Observe(w, old(history), p, position, erased, error, exitCode);
              && obs == (if built.None? then None else Some(built.value.text))
              && history == (if built.None? then old(history) else built.value.history)
    {
      hide TruncateTail, Phrases.PlainObservation, Phrases.FirstFailure, Phrases.RepeatedHeader, Phrases.Listing;
      if history.None? {
        return Some(w.PlainObservation(error, exitCode));
      }
      var record := MakeRecord(p, erased, error, exitCode);
      var records := if position in history.value then history.value[position] else [];
      if |records| >= p.maxHistoryPerPosition {
        if |records| == 0 {
          return None;
        }
        records := records[1..];
      }
      records := records + [record];
      history := Some(history.value[position := records]);

      if |records| <= 1 {
        return Some(w.FirstFailure(error, exitCode, TruncateTail(erased, p.maxErasedContentBytes)));
      }
      var text := ListAttempts(w, records, w.RepeatedHeader(error, exitCode, |records|));
      return Some(text);
    }
  }

  method ListAttempts(w: Phrases, records: seq<FailureRecord>, header: Text) returns (text: Text)
    ensures text == header + w.Listing(records)
  {
    hide Phrases.AttemptLine, Phrases.RepeatedHeader;
    text := header;
    for i := 0 to |records|
      invariant text == header + w.Listing(records[..i])
    {
      assert records[..i + 1][..i] == records[..i];
      text := text + w.AttemptLine(i + 1, records[i]);
    }
    assert records[..|records|] == records;
  }

  // ------------------------------------------------------------------
  // The history is a sliding window per position
  // ------------------------------------------------------------------

  datatype Fault = Fault(position: nat, record: FailureRecord)

  /** The history after a sequence of failures, with a cap of at least one. */
  function Replay(faults: seq<Fault>, cap: nat): (h: History)
    requires cap >= 1
  {
    if faults == [] then map[]
    else
      var last := faults[|faults| - 1];
      Remember(Replay(faults[..|faults| - 1], cap), last.position, last.record, cap).value
  }

  /** The records of the failures at one position, oldest first. */
  function At(faults: seq<Fault>, position: nat): seq<FailureRecord> {
    if faults == [] then []
    else
      var last, earlier := faults[|faults| - 1], At(faults[..|faults| - 1], position);
      if last.position == position then earlier + [last.record] else earlier
  }

  function LastOf<T>(s: seq<T>, n: nat): seq<T> {
    if |s| <= n then s else s[|s| - n..]
  }

  lemma SlideWindow<T>(s: seq<T>, x: T, n: nat)
    requires n >= 1
    ensures LastOf(s + [x], n) == (if |s| < n then LastOf(s, n) else LastOf(s, n)[1..]) + [x]
  {
  }

  /** At every position the history is the window of the last `cap` failures there, in order. */
  lemma {:induction false} HistoryIsSlidingWindow(faults: seq<Fault>, cap: nat, position: nat)
    requires cap >= 1
    ensures RecordsAt(Replay(faults, cap), position) == LastOf(At(faults, position), cap)
    ensures position in Replay(faults, cap) <==> At(faults, position) != []
  {
    if faults != [] {
      var earlier, last := faults[..|faults| - 1], faults[|faults| - 1];
      HistoryIsSlidingWindow(earlier, cap, position);
      if last.position == position {
        SlideWindow(At(earlier, position), last.record, cap);
      }
    }
  }

  /**
    The observation for the next failure lists exactly that window, ending with the failure itself;
    a window of one record gives the shorter first-failure text instead. The number of failures it
    reports is the true one exactly while the cap has not been exceeded.
   */
  lemma ObservationListsWindow(w: Phrases, faults: seq<Fault>, p: Prevention, position: nat,
                               erased: Text, error: Text, exitCode: int)
    requires p.maxHistoryPerPosition >= 1
    ensures var cap := p.maxHistoryPerPosition;
            var all := faults + [Fault(position, MakeRecord(p, erased, error, exitCode))];
            var window := LastOf(At(all, position), cap);
            var built := Observe(w, Some(Replay(faults, cap)), p, position, erased, error, exitCode);
            && built.Some?
            && built.value.history == Some(Replay(all, cap))
            && |window| >= 1 && window[|window| - 1] == MakeRecord(p, erased, error, exitCode)
            && (|window| == 1 ==>
                  built.value.text == w.FirstFailure(error, exitCode, TruncateTail(erased, p.maxErasedContentBytes)))
            && (|window| >= 2 ==>
                  built.value.text == w.RepeatedHeader(error, exitCode, |window|) + w.Listing(window))
            && (|window| == |At(all, position)| <==> |At(all, position)| <= cap)
  {
    var cap := p.maxHistoryPerPosition;
    var fault := Fault(position, MakeRecord(p, erased, error, exitCode));
    var all := faults + [fault];
    assert all[..|faults|] == faults;
    HistoryIsSlidingWindow(faults, cap, position);
    HistoryIsSlidingWindow(all, cap, position);
  }

  /** A line starts with its number, quotes what was generated, and ends with code and error. */
  lemma AttemptLineShows(w: Phrases, number: nat, r: FailureRecord)
    ensures var lead := w.attempt + Decimal(number) + w.generated;
            var line := w.AttemptLine(number, r);
            && MatchesAt(line, r.erasedContent, |lead|) && lead <= line
            && EndsWith(line, w.message + r.errorMessage + w.newline)
            && EndsWith(line, w.generated + r.erasedContent + w.attemptError + Decimal(r.exitCode)
                              + w.message + r.errorMessage + w.newline)
  {
    hide Decimal;
    var lead := w.attempt + Decimal(number) + w.generated;
    var middle, tail := w.attemptError + Decimal(r.exitCode), w.message + r.errorMessage + w.newline;
    var line := w.AttemptLine(number, r);
    assert line == lead + r.erasedContent + middle + tail;
    assert line[|lead|..|lead| + |r.erasedContent|] == r.erasedContent;
    assert line[|line| - |tail|..] == tail;
    AttemptLineEnds(w, number, r);
  }

  lemma AttemptLineEnds(w: Phrases, number: nat, r: FailureRecord)
    ensures EndsWith(w.AttemptLine(number, r), w.generated + r.erasedContent + w.attemptError + Decimal(r.exitCode)
                                               + w.message + r.errorMessage + w.newline)
  {
    hide Decimal, EndsWith;
    var start := w.attempt + Decimal(number);
    var rest := w.generated + r.erasedContent + w.attemptError + Decimal(r.exitCode)
                + w.message + r.errorMessage + w.newline;
    assert w.AttemptLine(number, r) == start + rest;
    TailEnds(start, rest);
  }

  /** A success observation shows the output between its fixed parts, and nothing else. */
  lemma SuccessShowsOutput(w: Phrases, stdout: Text)
    ensures var text := w.Success(stdout);
            && w.succeeded <= text && EndsWith(text, w.newline)
            && text[|w.succeeded|..|text| - |w.newline|] == stdout
  {
  }

  /** What a timeout reports denotes the configured time. */
  lemma TimeoutShowsTime(w: Phrases, timeoutMs: nat)
    ensures var text := w.TimeoutError(timeoutMs);
            && w.timedOut <= text && EndsWith(text, w.milliseconds)
            && SignedValue(text[|w.timedOut|..|text| - |w.milliseconds|]) == timeoutMs
  {
    hide Decimal, SignedValue;
    DecimalDenotes(timeoutMs);
    var text := w.TimeoutError(timeoutMs);
    assert text[|w.timedOut|..|text| - |w.milliseconds|] == Decimal(timeoutMs);
  }

  /** The header of a repeated failure says how many attempts it lists. */
  lemma HeaderShowsCount(w: Phrases, error: Text, exitCode: int, attempts: nat)
    ensures var text := w.RepeatedHeader(error, exitCode, attempts);
            var at := |w.PlainObservation(error, exitCode)| + |w.failed|;
            && EndsWith(text, w.times) && at <= |text| - |w.times|
            && SignedValue(text[at..|text| - |w.times|]) == attempts
  {
    hide Decimal, SignedValue, Phrases.PlainObservation;
    DecimalDenotes(attempts);
    var text := w.RepeatedHeader(error, exitCode, attempts);
    var at := |w.PlainObservation(error, exitCode)| + |w.failed|;
    assert text[at..|text| - |w.times|] == Decimal(attempts);
  }

  /**
    Every observation of a session with history ends by showing what was erased: a first failure quotes
    the capped text in its own words, a repeated one in the last listed attempt, with code and error.
   */
  lemma ObservationShowsErased(w: Phrases, history: History, p: Prevention, position: nat,
                               erased: Text, error: Text, exitCode: int)
    requires Observe(w, Some(history), p, position, erased, error, exitCode).Some?
    ensures var built := Observe(w, Some(history), p, position, erased, error, exitCode).value;
            var text, shown := built.text, TruncateTail(erased, p.maxErasedContentBytes);
            built.history.Some? &&
            if |RecordsAt(built.history.value, position)| == 1 then
              EndsWith(text, w.previousOutput + shown + w.endQuote)
            else
              EndsWith(text, w.generated + shown + w.attemptError + Decimal(exitCode)
                             + w.message + TruncateTail(error, p.maxErrorMessageBytes) + w.newline)
  {
    hide Decimal, TruncateTail, EndsWith, Phrases.AttemptLine, Phrases.PlainObservation, Phrases.RepeatedHeader;
    var record := MakeRecord(p, erased, error, exitCode);
    var h := Remember(history, position, record, p.maxHistoryPerPosition).value;
    var records := RecordsAt(h, position);
    assert records[|records| - 1] == record;
    if |records| <= 1 {
      QuoteEnds(w, error, exitCode, record.erasedContent);
    } else {
      var line := w.AttemptLine(|records|, record);
      AttemptLineShows(w, |records|, record);
      var tail := w.generated + record.erasedContent + w.attemptError + Decimal(exitCode)
                  + w.message + record.errorMessage + w.newline;
      var before := w.RepeatedHeader(error, exitCode, |records|) + w.Listing(records[..|records| - 1]);
      assert w.RepeatedHeader(error, exitCode, |records|) + w.Listing(records) == before + line;
      EndsWithin(before, line, tail);
    }
  }

  lemma QuoteEnds(w: Phrases, error: Text, exitCode: int, shown: Text)
    ensures EndsWith(w.FirstFailure(error, exitCode, shown), w.previousOutput + shown + w.endQuote)
  {
    hide EndsWith, Phrases.PlainObservation;
    var quote := w.previousOutput + shown + w.endQuote;
    assert w.FirstFailure(error, exitCode, shown) == w.PlainObservation(error, exitCode) + quote;
    TailEnds(w.PlainObservation(error, exitCode), quote);
  }

  /** Whatever the history, an observation starts with the code and the full message of the current error. */
  lemma ObservationShowsError(w: Phrases, history: Option<History>, p: Prevention, position: nat,
                              erased: Text, error: Text, exitCode: int)
    requires Observe(w, history, p, position, erased, error, exitCode).Some?
    ensures var text := Observe(w, history, p, position, erased, error, exitCode).value.text;
            var shown := w.error + Decimal(exitCode) + w.message + error + w.newline;
            shown <= text && (history.None? ==> text == shown)
  {
    hide Decimal, Remember, MakeRecord, TruncateTail;
  }

  /** The listing shows every retained attempt, numbered in order. */
  lemma {:induction false} ListingShowsAttempt(w: Phrases, records: seq<FailureRecord>, i: nat) returns (more: Text)
    requires i < |records|
    ensures w.Listing(records) == w.Listing(records[..i]) + w.AttemptLine(i + 1, records[i]) + more
  {
    hide Phrases.AttemptLine;
    var n := |records| - 1;
    if i == n {
      more := [];
    } else {
      var rest := ListingShowsAttempt(w, records[..n], i);
      assert records[..n][..i] == records[..i];
      more := rest + w.AttemptLine(n + 1, records[n]);
    }
  }

  /** With a cap of zero the first recorded failure panics; with a larger cap none ever does. */
  lemma PanicsIffCapIsZero(w: Phrases, faults: seq<Fault>, p: Prevention, position: nat,
                           erased: Text, error: Text, exitCode: int)
    ensures Observe(w, Some(map[]), p, position, erased, error, exitCode).None? <==> p.maxHistoryPerPosition == 0
    ensures p.maxHistoryPerPosition >= 1 ==>
              Observe(w, Some(Replay(faults, p.maxHistoryPerPosition)), p, position, erased, error, exitCode).Some?
  {
    if p.maxHistoryPerPosition >= 1 {
      ObservationListsWindow(w, faults, p, position, erased, error, exitCode);
    }
  }

  // ------------------------------------------------------------------
  // The observation is bounded by the configured caps
  // ------------------------------------------------------------------

  function Pow10(k: nat): nat {
    if k == 0 then 1 else 10 * Pow10(k - 1)
  }

  lemma {:induction false} DecimalDigits(n: nat, k: nat)
    requires k >= 1 && n < Pow10(k)
    ensures |DecimalNat(n)| <= k
  {
    if n >= 10 {
      assert k >= 2;
      DecimalDigits(n / 10, k - 1);
    }
  }

  predicate IsExitCode(n: int) {
    -0x8000_0000 <= n < 0x8000_0000
  }

  lemma ExitCodeDigits(n: int)
    requires IsExitCode(n)
    ensures |Decimal(n)| <= 11
  {
    assert Pow10(10) == 10_000_000_000;
    DecimalDigits(if n < 0 then -n else n, 10);
  }

  /** The budget of one listed attempt: its fixed fragments, two numbers and two capped texts. */
  function AttemptBudget(w: Phrases, p: Prevention): nat {
    |w.attempt| + |w.generated| + |w.attemptError| + |w.message| + |w.newline|
    + |DecimalNat(p.maxHistoryPerPosition)| + 11
    + p.maxErasedContentBytes + p.maxErrorMessageBytes + 2 * |ELLIPSIS|
  }

  /** The budget of everything else but the error message. */
  function HeaderBudget(w: Phrases, p: Prevention): nat {
    |w.error| + |w.message| + |w.newline| + 11
    + |w.previousOutput| + |w.endQuote| + p.maxErasedContentBytes + |ELLIPSIS|
    + |w.failed| + |w.times| + |DecimalNat(p.maxHistoryPerPosition)|
  }

  /** What an observation may add to the error message. */
  function TextBudget(w: Phrases, p: Prevention): nat {
    HeaderBudget(w, p) + p.maxHistoryPerPosition * AttemptBudget(w, p)
  }

  /** The default caps; prevention itself is off by default. */
  const DEFAULT_CAPS: Prevention := Prevention(false, 3, 512, 256)

  /** With the source's wording and default caps an observation adds at most 3248 bytes to the error message. */
  lemma DefaultBudget()
    ensures TextBudget(ENGLISH, DEFAULT_CAPS) == 3248
  {
    assert |DecimalNat(3)| == 1;
  }

  ghost predicate Capped(p: Prevention, records: seq<FailureRecord>) {
    forall i :: 0 <= i < |records| ==>
                  && |records[i].erasedContent| <= p.maxErasedContentBytes + |ELLIPSIS|
                  && |records[i].errorMessage| <= p.maxErrorMessageBytes + |ELLIPSIS|
                  && IsExitCode(records[i].exitCode)
  }

  lemma AttemptLineIsBounded(w: Phrases, p: Prevention, number: nat, r: FailureRecord)
    requires number <= p.maxHistoryPerPosition && Capped(p, [r])
    ensures |w.AttemptLine(number, r)| <= AttemptBudget(w, p)
  {
    assert [r][0] == r;
    ExitCodeDigits(r.exitCode);
    DecimalGrows(number, p.maxHistoryPerPosition);
  }

  lemma {:induction false} ListingIsBounded(w: Phrases, p: Prevention, records: seq<FailureRecord>)
    requires Capped(p, records) && |records| <= p.maxHistoryPerPosition
    ensures |w.Listing(records)| <= |records| * AttemptBudget(w, p)
  {
    hide Phrases.AttemptLine, AttemptBudget;
    if records != [] {
      var n := |records|;
      ListingIsBounded(w, p, records[..n - 1]);
      AttemptLineIsBounded(w, p, n, records[n - 1]);
      Distribute(n - 1, AttemptBudget(w, p));
    }
  }

  ghost predicate AllCapped(p: Prevention, faults: seq<Fault>) {
    forall i :: 0 <= i < |faults| ==> Capped(p, [faults[i].record])
  }

  lemma {:induction false} WindowIsCapped(p: Prevention, faults: seq<Fault>, position: nat)
    requires AllCapped(p, faults)
    ensures Capped(p, At(faults, position))
  {
    if faults != [] {
      var n := |faults|;
      WindowIsCapped(p, faults[..n - 1], position);
      assert [faults[n - 1].record][0] == faults[n - 1].record;
    }
  }

  /**
    However often a position fails, the observation is no longer than the error message plus a
    fixed header and one bounded line per retained attempt.
   */
  lemma ObservationIsBounded(w: Phrases, faults: seq<Fault>, p: Prevention, position: nat,
                             erased: Text, error: Text, exitCode: int)
    requires p.maxHistoryPerPosition >= 1
    requires AllCapped(p, faults) && IsExitCode(exitCode)
    ensures var history := Some(Replay(faults, p.maxHistoryPerPosition));
            var built := Observe(w, history, p, position, erased, error, exitCode);
            && built.Some?
            && |built.value.text| <= |error| + TextBudget(w, p)
  {
    hide Observe, Replay, At, TruncateTail, Phrases.Listing, DecimalNat;
    var cap := p.maxHistoryPerPosition;
    var record := MakeRecord(p, erased, error, exitCode);
    var all := faults + [Fault(position, record)];
    ObservationListsWindow(w, faults, p, position, erased, error, exitCode);
    assert AllCapped(p, all) by {
      assert [record][0] == record;
    }
    WindowIsCapped(p, all, position);
    var window := LastOf(At(all, position), cap);
    ExitCodeDigits(exitCode);
    if |window| >= 2 {
      ListingIsBounded(w, p, window);
      DecimalGrows(|window|, cap);
      Monotone(|window|, cap, AttemptBudget(w, p));
    } else {
      Monotone(1, cap, AttemptBudget(w, p));
    }
  }

  lemma Distribute(n: nat, x: nat)
    ensures (n + 1) * x == n * x + x
  {
  }

  lemma Monotone(a: nat, b: nat, x: nat)
    requires a <= b
    ensures a * x <= b * x
  {
  }
}
