/** Extraction of action blocks from generated text (`src/inference/executor.rs`). */
module ActionParser {
  import opened Wrappers
  import opened Texts

  const OPEN_TAG: Text := "<action"
  const CLOSE_TAG: Text := "</action>"
  const TYPE_ATTRIBUTE: Text := "type"
  const DEFAULT_TYPE: Text := "python"

  datatype ActionPayload = ActionPayload(actionType: Text, code: Text, startTokenPos: nat, endTokenPos: nat)

  /** The value of `name="..."` inside a tag. */
  function ExtractAttribute(tag: Text, name: Text): Option<Text> {
    var pattern := name + "=\"";
    var at :- Find(tag, pattern);
    var start := at + |pattern|;
    var len :- Find(tag[start..], "\"");
    Some(tag[start..start + len])
  }

  /** The first `<action ...>...</action>` block of `text`; offsets are relative to `tokenOffset`. */
  function ExtractAction(text: Text, tokenOffset: nat): Option<ActionPayload> {
    var open :- Find(text, OPEN_TAG);
    var gt :- Find(text[open..], ">");
    var openEnd := open + gt + 1;
    var close :- Find(text, CLOSE_TAG);
    if close <= openEnd then None
    else Some(PayloadAt(text, Marks(open, openEnd, close), tokenOffset))
  }

  /** The `type` attribute of a tag, `python` when it has none. */
  function TypeOf(tag: Text): Text {
    ExtractAttribute(tag, TYPE_ATTRIBUTE).GetOr(DEFAULT_TYPE)
  }

  /** Where a block lies: the opening tag is `[open, openEnd)`, the body `[openEnd, close)`. */
  datatype Marks = Marks(open: nat, openEnd: nat, close: nat)

  predicate InOrder(text: Text, m: Marks) {
    m.open < m.openEnd < m.close && m.close + |CLOSE_TAG| <= |text|
  }

  function PayloadAt(text: Text, m: Marks, tokenOffset: nat): ActionPayload
    requires m.open <= m.openEnd <= m.close <= |text|
  {
    ActionPayload(
      TypeOf(text[m.open..m.openEnd]),
      Trim(text[m.openEnd..m.close]),
      tokenOffset + m.open,
      tokenOffset + m.close + |CLOSE_TAG|)
  }

  /**
    `m` marks the first block of `text`: it opens at the first `<action`, the opening tag ends at
    its first `>`, the body is not empty and ends at the first `</action>` of the text.
   */
  ghost predicate MarksBlock(text: Text, m: Marks) {
    && InOrder(text, m)
    && FirstAt(text, OPEN_TAG, m.open)
    && text[m.openEnd - 1] == '>' && '>' !in text[m.open..m.openEnd - 1]
    && FirstAt(text, CLOSE_TAG, m.close)
  }

  lemma FirstByteAt(s: Text, c: char, i: nat)
    requires i < |s|
    ensures FirstAt(s, [c], i) <==> s[i] == c && c !in s[..i]
  {
    forall j: nat | j < |s|
      ensures MatchesAt(s, [c], j) <==> s[j] == c
    {
      assert s[j..j + 1] == [s[j]];
    }
    assert forall j :: 0 <= j < i ==> s[..i][j] == s[j];
  }

  /** A marked block is what the parser returns. */
  lemma MarkedBlockIsParsed(text: Text, m: Marks, tokenOffset: nat)
    requires MarksBlock(text, m)
    ensures ExtractAction(text, tokenOffset) == Some(PayloadAt(text, m, tokenOffset))
  {
    hide TypeOf, Trim, Occurs, FindFrom, MatchesAt;
    FindIs(text, OPEN_TAG, m.open);
    TagEndIsFound(text, m);
    FindIs(text, CLOSE_TAG, m.close);
    FoundMarks(text, m, tokenOffset);
  }

  /** The `>` that ends the tag is the one the parser finds. */
  lemma TagEndIsFound(text: Text, m: Marks)
    requires m.open < m.openEnd <= |text|
    requires text[m.openEnd - 1] == '>' && '>' !in text[m.open..m.openEnd - 1]
    ensures Find(text[m.open..], ">") == Some(m.openEnd - 1 - m.open)
  {
    var tail, gt := text[m.open..], m.openEnd - 1 - m.open;
    assert tail[..gt] == text[m.open..m.openEnd - 1];
    FirstByteAt(tail, '>', gt);
    FindIs(tail, ">", gt);
  }

  lemma FoundMarks(text: Text, m: Marks, tokenOffset: nat)
    requires InOrder(text, m)
    requires Find(text, OPEN_TAG) == Some(m.open)
    requires Find(text[m.open..], ">") == Some(m.openEnd - 1 - m.open)
    requires Find(text, CLOSE_TAG) == Some(m.close)
    ensures ExtractAction(text, tokenOffset) == Some(PayloadAt(text, m, tokenOffset))
  {
    hide TypeOf, Trim, MatchesAt, FirstAt, Occurs, FindFrom;
  }

  /** The parser accepts a text exactly when it contains a marked block. */
  lemma AcceptsExactlyMarkedBlocks(text: Text, tokenOffset: nat)
    ensures ExtractAction(text, tokenOffset).Some? <==> exists m: Marks :: MarksBlock(text, m)
  {
    hide PayloadAt, MarksBlock;
    if ExtractAction(text, tokenOffset).Some? {
      var m := AcceptedMarks(text, tokenOffset);
    }
    if m: Marks :| MarksBlock(text, m) {
      MarkedBlockIsParsed(text, m, tokenOffset);
    }
  }

  lemma AcceptedMarks(text: Text, tokenOffset: nat) returns (m: Marks)
    requires ExtractAction(text, tokenOffset).Some?
    ensures MarksBlock(text, m)
    ensures ExtractAction(text, tokenOffset) == Some(PayloadAt(text, m, tokenOffset))
  {
    hide TypeOf, Trim, Occurs, FindFrom;
    var open := Find(text, OPEN_TAG).value;
    var tail := text[open..];
    var gt := Find(tail, ">").value;
    var close := Find(text, CLOSE_TAG).value;
    m := Marks(open, open + gt + 1, close);
    FirstByteAt(tail, '>', gt);
    assert tail[..gt] == text[m.open..m.openEnd - 1];
    FoundMarks(text, m, tokenOffset);
  }

  /** The first `<action` of `text` is closed by a `>` with at least one byte between it and offset `n`. */
  ghost predicate OpensBefore(text: Text, n: nat) {
    exists open: nat, i: nat :: FirstAt(text, OPEN_TAG, open) && OpensAt(text, n, open, i)
  }

  ghost predicate OpensAt(text: Text, n: nat, open: nat, i: nat) {
    open <= i && i + 1 < n <= |text| && text[i] == '>' && '>' !in text[open..i]
  }

  /**
    What the parser makes of a text whose first closing tag, at `n`, is its end: a block that ends with
    the text, unless no `<action` is closed with a byte to spare before the closing tag.
   */
  lemma BlockAtEnd(text: Text, n: nat, tokenOffset: nat)
    requires |text| == n + |CLOSE_TAG| && FirstAt(text, CLOSE_TAG, n)
    ensures ExtractAction(text, tokenOffset).Some? <==> OpensBefore(text, n)
    ensures ExtractAction(text, tokenOffset).Some? ==>
              exists open: nat, i: nat ::
                && FirstAt(text, OPEN_TAG, open) && OpensAt(text, n, open, i)
                && ExtractAction(text, tokenOffset)
                   == Some(ActionPayload(TypeOf(text[open..i + 1]), Trim(text[i + 1..n]),
                                         tokenOffset + open, tokenOffset + |text|))
  {
    hide ExtractAction, FirstAt, TypeOf, Trim;
    if ExtractAction(text, tokenOffset).Some? {
      var m := AcceptedMarks(text, tokenOffset);
      SameFirst(text, CLOSE_TAG, m.close, n);
      assert OpensAt(text, n, m.open, m.openEnd - 1);
    }
    if open: nat, i: nat :| FirstAt(text, OPEN_TAG, open) && OpensAt(text, n, open, i) {
      MarkedBlockIsParsed(text, Marks(open, i + 1, n), tokenOffset);
    }
  }

  /**
    No action before offset `n`: no `<action`, or no `>` after the first one, or only one right at `n`,
    which leaves no room for a body.
   */
  ghost predicate OpensNothing(text: Text, n: nat) {
    || !Occurs(text, OPEN_TAG)
    || exists open: nat :: FirstAt(text, OPEN_TAG, open) && StaysOpen(text, n, open)
  }

  ghost predicate StaysOpen(text: Text, n: nat, open: nat) {
    forall i: nat :: open <= i && i + 1 < n && i < |text| ==> text[i] != '>'
  }

  lemma OpensNothingIff(text: Text, n: nat)
    requires n <= |text|
    ensures OpensNothing(text, n) <==> !OpensBefore(text, n)
  {
    hide FirstAt, MatchesAt, FindFrom;
    if Occurs(text, OPEN_TAG) {
      var open := Find(text, OPEN_TAG).value;
      FirstTagEnd(text, n, open);
      forall other: nat | FirstAt(text, OPEN_TAG, other)
        ensures other == open
      {
        SameFirst(text, OPEN_TAG, other, open);
      }
    } else {
      forall open: nat
        ensures !FirstAt(text, OPEN_TAG, open)
      {
        FirstOccurs(text, OPEN_TAG, open);
      }
    }
  }

  lemma FirstOccurs(s: Text, p: Text, i: nat)
    ensures FirstAt(s, p, i) ==> Occurs(s, p)
  {
  }

  lemma {:induction false} FirstTagEnd(text: Text, n: nat, open: nat)
    requires n <= |text|
    ensures StaysOpen(text, n, open) <==> !exists i: nat :: OpensAt(text, n, open, i)
    decreases n
  {
    if n >= 2 && open <= n - 2 {
      var m: nat := n - 1;
      FirstTagEnd(text, m, open);
      if i: nat :| OpensAt(text, m, open, i) {
        assert OpensAt(text, n, open, i);
      }
      if StaysOpen(text, m, open) && text[n - 2] == '>' {
        assert OpensAt(text, n, open, n - 2);
      }
    }
  }

  lemma SameFirst(s: Text, p: Text, i: nat, j: nat)
    requires FirstAt(s, p, i) && FirstAt(s, p, j)
    ensures i == j
  {
    hide MatchesAt;
  }

  // ------------------------------------------------------------------
  // Blocks as a model writes them: prefix <action type="T"> body </action>
  // ------------------------------------------------------------------

  const LEAD: Text := "<action type=\""
  const MID: Text := "\">"

  function Render(prefix: Text, actionType: Text, body: Text): Text {
    prefix + (LEAD + (actionType + (MID + (body + CLOSE_TAG))))
  }

  function RenderedMarks(prefix: Text, actionType: Text, body: Text): Marks {
    var openEnd := |prefix| + |LEAD| + |actionType| + |MID|;
    Marks(|prefix|, openEnd, openEnd + |body|)
  }

  /** A closing marker such as `</action>` or `</s>`. */
  predicate IsClosingMarker(p: Text) {
    |p| >= 3 && p[0] == '<' && p[1] == '/' && '<' !in p[1..] && '"' !in p[1..]
  }

  /** The fixed pieces, seen only through the bytes that matter for the search. */
  predicate IsFrame(lead: Text, mid: Text, close: Text) {
    && |lead| >= 2 && lead[0] == '<' && lead[1] != '/' && '<' !in lead[1..]
    && mid != [] && mid[0] == '"' && '<' !in mid
    && close != [] && close[0] == '<'
  }

  /**
    A closing marker that occurs in none of the three free pieces does not occur in the block
    before the final `</action>`, not even across the seams between pieces.
   */
  lemma NoMarkerBeforeClose(prefix: Text, lead: Text, actionType: Text, mid: Text, body: Text, close: Text,
                            p: Text, j: nat)
    requires IsClosingMarker(p) && IsFrame(lead, mid, close)
    requires !Occurs(prefix, p) && !Occurs(actionType, p) && !Occurs(body, p)
    requires j < |prefix| + |lead| + |actionType| + |mid| + |body|
    ensures !MatchesAt(prefix + (lead + (actionType + (mid + (body + close)))), p, j)
  {
    var s4 := body + close;
    var s3 := mid + s4;
    var s2 := actionType + s3;
    var s1 := lead + s2;
    if j < |prefix| {
      MatchStaysInside(prefix, s1, p, j);
    } else {
      MatchInTail(prefix, s1, p, j);
      var k := j - |prefix|;
      if k < |lead| {
        NoMarkerInLead(lead, s2, p, k);
      } else {
        MatchInTail(lead, s2, p, k);
        NoMarkerAfterLead(actionType, mid, body, close, p, k - |lead|);
      }
    }
  }

  lemma NoMarkerAfterLead(actionType: Text, mid: Text, body: Text, close: Text, p: Text, l: nat)
    requires IsClosingMarker(p)
    requires mid != [] && mid[0] == '"' && '<' !in mid
    requires close != [] && close[0] == '<'
    requires !Occurs(actionType, p) && !Occurs(body, p)
    requires l < |actionType| + |mid| + |body|
    ensures !MatchesAt(actionType + (mid + (body + close)), p, l)
  {
    var s4 := body + close;
    var s3 := mid + s4;
    if l < |actionType| {
      MatchStaysInside(actionType, s3, p, l);
    } else {
      MatchInTail(actionType, s3, p, l);
      var m := l - |actionType|;
      if m < |mid| {
        assert s3[m] == mid[m];
        NoMatchByByte(s3, p, m, 0);
      } else {
        MatchInTail(mid, s4, p, m);
        MatchStaysInside(body, close, p, m - |mid|);
      }
    }
  }

  lemma NoMarkerInLead(lead: Text, tail: Text, p: Text, k: nat)
    requires IsClosingMarker(p) && k < |lead|
    requires |lead| >= 2 && lead[0] == '<' && lead[1] != '/' && '<' !in lead[1..]
    ensures !MatchesAt(lead + tail, p, k)
  {
    if k == 0 {
      NoMatchByByte(lead + tail, p, k, 1);
    } else {
      assert (lead + tail)[k] == lead[1..][k - 1];
      NoMatchByByte(lead + tail, p, k, 0);
    }
  }

  lemma FixedPiecesAreFrame()
    ensures IsFrame(LEAD, MID, CLOSE_TAG)
    ensures IsClosingMarker(CLOSE_TAG)
    ensures OPEN_TAG <= LEAD && '>' !in LEAD
  {
    assert LEAD[..7] == OPEN_TAG;
  }

  /** Around a piece of a concatenation. */
  lemma Piece(a: Text, b: Text, c: Text)
    ensures (a + (b + c))[|a|..|a| + |b|] == b
  {
  }

  /** A rendering whose free pieces are clean of tags is marked where it was written. */
  lemma RenderingIsMarked(prefix: Text, actionType: Text, body: Text)
    requires !Occurs(prefix, OPEN_TAG)
    requires !Occurs(prefix, CLOSE_TAG) && !Occurs(body, CLOSE_TAG)
    requires '>' !in actionType
    requires body != []
    ensures MarksBlock(Render(prefix, actionType, body), RenderedMarks(prefix, actionType, body))
  {
    var text, m := Render(prefix, actionType, body), RenderedMarks(prefix, actionType, body);
    FixedPiecesAreFrame();
    OpensAtPrefix(prefix, LEAD, actionType + (MID + (body + CLOSE_TAG)));
    TagIsTyped(prefix, actionType, body);
    assert !Occurs(actionType, CLOSE_TAG) by {
      if i: nat :| MatchesAt(actionType, CLOSE_TAG, i) {
        MatchBytes(actionType, CLOSE_TAG, i, |CLOSE_TAG| - 1);
      }
    }
    forall j: nat | j < m.close
      ensures !MatchesAt(text, CLOSE_TAG, j)
    {
      NoMarkerBeforeClose(prefix, LEAD, actionType, MID, body, CLOSE_TAG, CLOSE_TAG, j);
    }
    ClosesAtEnd(prefix, LEAD, actionType, MID, body, CLOSE_TAG);
  }

  lemma ClosesAtEnd(prefix: Text, lead: Text, actionType: Text, mid: Text, body: Text, close: Text)
    ensures var text := prefix + (lead + (actionType + (mid + (body + close))));
            |text| >= |close| && text[|text| - |close|..] == close
  {
  }

  lemma OpensAtPrefix(prefix: Text, lead: Text, tail: Text)
    requires OPEN_TAG <= lead
    requires !Occurs(prefix, OPEN_TAG)
    ensures FirstAt(prefix + (lead + tail), OPEN_TAG, |prefix|)
  {
    var text := prefix + (lead + tail);
    assert text[|prefix|..|prefix| + |OPEN_TAG|] == lead[..|OPEN_TAG|];
    forall j: nat | j < |prefix|
      ensures !MatchesAt(text, OPEN_TAG, j)
    {
      MatchStaysInside(prefix, lead + tail, OPEN_TAG, j);
    }
  }

  lemma TagIsTyped(prefix: Text, actionType: Text, body: Text)
    requires '>' !in actionType
    ensures var text, m := Render(prefix, actionType, body), RenderedMarks(prefix, actionType, body);
            && m.openEnd <= m.close <= |text|
            && text[m.open..m.openEnd] == LEAD + actionType + MID
            && text[m.openEnd..m.close] == body
            && text[m.openEnd - 1] == '>' && '>' !in text[m.open..m.openEnd - 1]
  {
    var text, m := Render(prefix, actionType, body), RenderedMarks(prefix, actionType, body);
    var tag := LEAD + actionType + MID;
    Regroup(prefix, LEAD, actionType, MID, body, CLOSE_TAG);
    Piece(prefix, tag, body + CLOSE_TAG);
    Piece(prefix + tag, body, CLOSE_TAG);
    assert text[m.open..m.openEnd] == tag;
    assert tag[|tag| - 1] == MID[1];
    assert text[m.open..m.openEnd - 1] == tag[..|tag| - 1] == LEAD + actionType + MID[..1];
    FixedPiecesAreFrame();
  }

  lemma Regroup(a: Text, b: Text, c: Text, d: Text, e: Text, f: Text)
    ensures a + (b + (c + (d + (e + f)))) == a + ((b + c + d) + (e + f))
    ensures a + (b + (c + (d + (e + f)))) == (a + (b + c + d)) + (e + f)
  {
  }

  /** The type attribute of a typed tag is read back. */
  lemma TypeAttributeReadBack(actionType: Text)
    requires '"' !in actionType
    ensures ExtractAttribute(LEAD + actionType + MID, TYPE_ATTRIBUTE) == Some(actionType)
  {
    var pattern := TYPE_ATTRIBUTE + "=\"";
    var tail := actionType + MID;
    var tag := LEAD + tail;
    assert LEAD + actionType + MID == tag;
    FirstTypeInLead(pattern, tail);
    FindIs(tag, pattern, 8);
    assert tag[14..] == tail;
    assert tail[..|actionType|] == actionType;
    FirstByteAt(tail, '"', |actionType|);
    FindIs(tail, "\"", |actionType|);
    assert tag[14..14 + |actionType|] == actionType;
  }

  lemma FirstTypeInLead(pattern: Text, tail: Text)
    requires pattern == TYPE_ATTRIBUTE + "=\""
    ensures FirstAt(LEAD + tail, pattern, 8)
  {
    var tag := LEAD + tail;
    assert tag[8..14] == LEAD[8..14] == pattern;
    forall j: nat | j < 8
      ensures !MatchesAt(tag, pattern, j)
    {
      NoMatchByByte(tag, pattern, j, if j == 3 then 1 else 0);
    }
  }

  /**
    What a model writes is what the executor gets: the type, the trimmed body and the offsets.
    A block with an empty body is not an action.
   */
  lemma RoundTrip(prefix: Text, actionType: Text, body: Text, tokenOffset: nat)
    requires !Occurs(prefix, OPEN_TAG)
    requires !Occurs(prefix, CLOSE_TAG) && !Occurs(body, CLOSE_TAG)
    requires '>' !in actionType && '"' !in actionType
    ensures var text := Render(prefix, actionType, body);
            ExtractAction(text, tokenOffset) ==
            if body == [] then None
            else Some(ActionPayload(actionType, Trim(body), tokenOffset + |prefix|, tokenOffset + |text|))
  {
    hide TypeOf, Trim, Render, MarksBlock, ExtractAction;
    if body == [] {
      EmptyBodyRejected(prefix, actionType, tokenOffset);
    } else {
      RenderingIsMarked(prefix, actionType, body);
      MarkedBlockIsParsed(Render(prefix, actionType, body), RenderedMarks(prefix, actionType, body), tokenOffset);
      PayloadIsTyped(prefix, actionType, body, tokenOffset);
    }
  }

  lemma PayloadIsTyped(prefix: Text, actionType: Text, body: Text, tokenOffset: nat)
    requires '>' !in actionType && '"' !in actionType
    ensures var text, m := Render(prefix, actionType, body), RenderedMarks(prefix, actionType, body);
            && m.openEnd <= m.close <= |text|
            && PayloadAt(text, m, tokenOffset)
               == ActionPayload(actionType, Trim(body), tokenOffset + |prefix|, tokenOffset + |text|)
  {
    TagIsTyped(prefix, actionType, body);
    TypeAttributeReadBack(actionType);
  }

  /** With an empty body the closing tag starts where the opening tag ends. */
  lemma EmptyBodyRejected(prefix: Text, actionType: Text, tokenOffset: nat)
    requires !Occurs(prefix, OPEN_TAG)
    requires '>' !in actionType
    ensures ExtractAction(Render(prefix, actionType, ""), tokenOffset) == None
  {
    hide TypeOf, Trim, FindFrom;
    var text, m := Render(prefix, actionType, ""), RenderedMarks(prefix, actionType, "");
    FixedPiecesAreFrame();
    OpensAtPrefix(prefix, LEAD, actionType + (MID + ("" + CLOSE_TAG)));
    FindIs(text, OPEN_TAG, m.open);
    TagIsTyped(prefix, actionType, "");
    TagEndIsFound(text, m);
    ClosesAtEnd(prefix, LEAD, actionType, MID, "", CLOSE_TAG);
    FindAtMost(text, CLOSE_TAG, m.close);
    ClosedTooEarly(text, m, tokenOffset);
  }

  lemma ClosedTooEarly(text: Text, m: Marks, tokenOffset: nat)
    requires m.open < m.openEnd <= |text|
    requires Find(text, OPEN_TAG) == Some(m.open)
    requires Find(text[m.open..], ">") == Some(m.openEnd - 1 - m.open)
    requires Find(text, CLOSE_TAG).Some? && Find(text, CLOSE_TAG).value <= m.openEnd
    ensures ExtractAction(text, tokenOffset) == None
  {
    hide TypeOf, Trim, MatchesAt, FirstAt, Occurs, FindFrom;
  }

  // ------------------------------------------------------------------
  // Blocks with any opening tag
  // ------------------------------------------------------------------

  /**
    Which value is read: the one between the first `name="` of the tag and the first quote behind it; none
    if there is no such pattern or quote.
   */
  lemma AttributeReadIff(tag: Text, name: Text, value: Text)
    ensures ExtractAttribute(tag, name) == Some(value) <==>
            exists at: nat :: FirstAt(tag, name + "=\"", at) && QuotedAt(tag, at + |name| + 2, value)
    ensures ExtractAttribute(tag, name).Some? <==>
            exists at: nat :: FirstAt(tag, name + "=\"", at) && Occurs(tag[at + |name| + 2..], "\"")
  {
    hide Occurs, FindFrom, QuotedAt;
    var pattern := name + "=\"";
    assert |pattern| == |name| + 2;
    if at: nat :| FirstAt(tag, pattern, at) {
      FindIs(tag, pattern, at);
      QuotedIff(tag, at + |name| + 2, value);
    }
    if ExtractAttribute(tag, name).Some? {
      var at := Find(tag, pattern).value;
      assert FirstAt(tag, pattern, at) && Occurs(tag[at + |name| + 2..], "\"");
      QuotedIff(tag, at + |name| + 2, value);
    }
  }

  /** `value` stands at `start` and is followed by the first quote from there on. */
  predicate QuotedAt(s: Text, start: nat, value: Text) {
    MatchesAt(s, value + "\"", start) && '"' !in value
  }

  lemma QuotedIff(s: Text, start: nat, value: Text)
    requires start <= |s|
    ensures QuotedAt(s, start, value) <==>
            var len := Find(s[start..], "\""); len.Some? && value == s[start..start + len.value]
  {
    hide Occurs, FindFrom;
    var tail, n := s[start..], |value|;
    if QuotedAt(s, start, value) {
      assert tail[..n + 1] == value + "\"";
      assert tail[..n] == value;
      FirstByteAt(tail, '"', n);
      FindIs(tail, "\"", n);
    }
    var len := Find(tail, "\"");
    if len.Some? && value == s[start..start + len.value] {
      FirstByteAt(tail, '"', len.value);
      assert tail[..len.value] == value;
      assert s[start..start + n + 1] == value + "\"";
    }
  }

  /** A tag that does not contain `type="` means the default type. */
  lemma UntypedTagDefaults(tag: Text)
    requires !Occurs(tag, TYPE_ATTRIBUTE + "=\"")
    ensures TypeOf(tag) == DEFAULT_TYPE
  {
    hide Occurs, FindFrom;
  }

  /** An opening tag: it begins with `<action`, ends at its only `>`, and holds no closing tag. */
  ghost predicate IsOpeningTag(tag: Text) {
    && OPEN_TAG <= tag && |tag| > |OPEN_TAG|
    && tag[|tag| - 1] == '>' && '>' !in tag[..|tag| - 1]
    && !Occurs(tag, CLOSE_TAG)
  }

  function Block(prefix: Text, tag: Text, body: Text): Text {
    prefix + (tag + (body + CLOSE_TAG))
  }

  /** An occurrence of the closing tag cannot reach over the `>` that ends an opening tag. */
  lemma CloseNotAcrossTag(tag: Text, tail: Text, j: nat)
    requires IsOpeningTag(tag) && j < |tag|
    ensures !MatchesAt(tag + tail, CLOSE_TAG, j)
  {
    var k := |tag| - 1 - j;
    if k < |CLOSE_TAG| - 1 {
      assert CLOSE_TAG[k] != '>';
      NoMatchByByte(tag + tail, CLOSE_TAG, j, k);
    } else {
      MatchWithin(tag, tail, CLOSE_TAG, j);
    }
  }

  lemma BlockIsMarked(prefix: Text, tag: Text, body: Text)
    requires IsOpeningTag(tag) && body != []
    requires !Occurs(prefix, OPEN_TAG) && !Occurs(prefix, CLOSE_TAG) && !Occurs(body, CLOSE_TAG)
    ensures var openEnd := |prefix| + |tag|;
            MarksBlock(Block(prefix, tag, body), Marks(|prefix|, openEnd, openEnd + |body|))
  {
    var text, openEnd := Block(prefix, tag, body), |prefix| + |tag|;
    var tail := body + CLOSE_TAG;
    OpensAtPrefix(prefix, tag, tail);
    assert text[|prefix|..openEnd - 1] == tag[..|tag| - 1];
    assert text == prefix + tag + body + CLOSE_TAG;
    forall j: nat | j < openEnd + |body|
      ensures !MatchesAt(text, CLOSE_TAG, j)
    {
      if j < |prefix| {
        MatchStaysInside(prefix, tag + tail, CLOSE_TAG, j);
      } else {
        MatchInTail(prefix, tag + tail, CLOSE_TAG, j);
        if j < openEnd {
          CloseNotAcrossTag(tag, tail, j - |prefix|);
        } else {
          MatchInTail(tag, tail, CLOSE_TAG, j - |prefix|);
          MatchStaysInside(body, CLOSE_TAG, CLOSE_TAG, j - openEnd);
        }
      }
    }
  }

  /**
    The round trip for any opening tag: its type attribute, or the default type of a tag without one,
    the trimmed body, and the offsets of the block.
   */
  lemma TaggedRoundTrip(prefix: Text, tag: Text, body: Text, tokenOffset: nat)
    requires IsOpeningTag(tag) && body != []
    requires !Occurs(prefix, OPEN_TAG) && !Occurs(prefix, CLOSE_TAG) && !Occurs(body, CLOSE_TAG)
    ensures var text := Block(prefix, tag, body);
            ExtractAction(text, tokenOffset)
            == Some(ActionPayload(TypeOf(tag), Trim(body), tokenOffset + |prefix|, tokenOffset + |text|))
    ensures !Occurs(tag, TYPE_ATTRIBUTE + "=\"") ==> TypeOf(tag) == DEFAULT_TYPE
  {
    hide TypeOf, Trim, MarksBlock, ExtractAction, IsOpeningTag, Occurs;
    var text, openEnd := Block(prefix, tag, body), |prefix| + |tag|;
    BlockIsMarked(prefix, tag, body);
    MarkedBlockIsParsed(text, Marks(|prefix|, openEnd, openEnd + |body|), tokenOffset);
    assert text[|prefix|..openEnd] == tag;
    assert text[openEnd..openEnd + |body|] == body;
    if !Occurs(tag, TYPE_ATTRIBUTE + "=\"") {
      UntypedTagDefaults(tag);
    }
  }

  /** The plain tag is an opening tag of the default type. */
  lemma PlainTagDefaults()
    ensures IsOpeningTag(OPEN_TAG + ">") && TypeOf(OPEN_TAG + ">") == DEFAULT_TYPE
  {
    var tag, pattern := OPEN_TAG + ">", TYPE_ATTRIBUTE + "=\"";
    forall j: nat
      ensures !MatchesAt(tag, pattern, j)
    {
      NoMatchByByte(tag, pattern, j, if j == 3 then 1 else 0);
    }
  }
}
