/**
 * Splitting a composer prompt into text, mentions, skills and terminal contexts
 * (apps/web/src/composer-editor-mentions.ts:24-194 and 233-258).
 *
 * A Dafny character stands for one code unit of the prompt.
 */
module ComposerSegments {
  import opened Prelude
  import opened Text

  // INLINE_TERMINAL_CONTEXT_PLACEHOLDER (apps/web/src/lib/terminalContext.ts:37)
  const PLACEHOLDER: char := '\U{FFFC}'

  datatype Kind = MentionKind | SkillKind

  /** TerminalContextDraft (apps/web/src/lib/terminalContext.ts:8-16). */
  datatype TerminalContext = TerminalContext(
    id: string,
    threadId: string,
    createdAt: string,
    terminalId: string,
    terminalLabel: string,
    lineStart: int,
    lineEnd: int,
    text: string)

  datatype Segment =
    | Text(text: string)
    | Token(kind: Kind, value: string)
    | Terminal(context: Option<TerminalContext>)

  datatype Match = Match(kind: Kind, value: string, start: nat, end: nat)

  // ----- character classes of the two regular expressions -----

  function Sigil(kind: Kind): char {
    match kind
    case MentionKind => '@'
    case SkillKind => '$'
  }

  /** The characters of a token's body, which for a skill starts with a letter. */
  predicate BodyChar(kind: Kind, first: bool, c: char) {
    match kind
    case MentionKind => !IsSpace(c) && c != '@'
    case SkillKind => IsLetter(c) || (!first && ('0' <= c <= '9' || c == ':' || c == '_' || c == '-'))
  }

  // ----- what a token is -----

  ghost predicate IsBody(kind: Kind, body: string) {
    body != [] && forall k :: 0 <= k < |body| ==> BodyChar(kind, k == 0, body[k])
  }

  /** `text[i..j]` is a token: a sigil and a body, at the start or after whitespace, and
      followed by whitespace. */
  ghost predicate IsToken(kind: Kind, text: string, i: nat, j: nat) {
    && i + 1 < j < |text|
    && (i == 0 || IsSpace(text[i - 1]))
    && text[i] == Sigil(kind)
    && IsBody(kind, text[i + 1..j])
    && IsSpace(text[j])
  }

  // ----- matching, as the regular expressions do it -----

  /** The end of the longest body that begins at `start`, from `i` on. */
  function RunEnd(kind: Kind, text: string, start: nat, i: nat): (end: nat)
    requires start <= i <= |text|
    ensures i <= end <= |text|
    decreases |text| - i
  {
    if i < |text| && BodyChar(kind, i == start, text[i]) then RunEnd(kind, text, start, i + 1) else i
  }

  /** The token whose sigil is at `start`, if there is one. The longest body is the only
      candidate: a shorter one is followed by a body character, not by whitespace. */
  function MatchAtSigil(kind: Kind, text: string, start: nat): (m: Option<Match>)
    ensures m.Some? ==> m.value.start == start && start + 1 < m.value.end < |text|
  {
    if start < |text| && text[start] == Sigil(kind) then
      var end := RunEnd(kind, text, start + 1, start + 1);
      if start + 1 < end < |text| && IsSpace(text[end])
      then Some(Match(kind, text[start + 1..end], start, end))
      else None
    else None
  }

  /** One attempt of (^|\s) followed by a token at `index`. */
  function MatchAt(kind: Kind, text: string, index: nat): (m: Option<Match>)
    requires index < |text|
    ensures m.Some? ==> index <= m.value.start < m.value.end < |text|
  {
    if index == 0 && MatchAtSigil(kind, text, 0).Some? then MatchAtSigil(kind, text, 0)
    else if IsSpace(text[index]) then MatchAtSigil(kind, text, index + 1)
    else None
  }

  /** `matchAll`: the next search starts where the last match ended. */
  function MatchesFrom(kind: Kind, text: string, index: nat): seq<Match>
    requires index <= |text|
    decreases |text| - index
  {
    if index == |text| then []
    else
      match MatchAt(kind, text, index)
      case Some(m) => [m] + MatchesFrom(kind, text, m.end)
      case None => MatchesFrom(kind, text, index + 1)
  }

  /** A stable sort by start. */
  function InsertMatch(ms: seq<Match>, m: Match): seq<Match> {
    if ms == [] || ms[|ms| - 1].start <= m.start then ms + [m]
    else InsertMatch(ms[..|ms| - 1], m) + [ms[|ms| - 1]]
  }

  function SortMatches(ms: seq<Match>): seq<Match> {
    if ms == [] then [] else InsertMatch(SortMatches(ms[..|ms| - 1]), ms[|ms| - 1])
  }

  function CollectMatches(text: string): seq<Match> {
    SortMatches(MatchesFrom(MentionKind, text, 0) + MatchesFrom(SkillKind, text, 0))
  }

  // ----- the matches are the tokens -----

  ghost predicate IsTokenMatch(text: string, m: Match) {
    IsToken(m.kind, text, m.start, m.end) && m.value == text[m.start + 1..m.end]
  }

  lemma {:induction false} RunEndIsBody(kind: Kind, text: string, start: nat, i: nat)
    requires start <= i <= |text|
    requires forall k :: start <= k < i ==> BodyChar(kind, k == start, text[k])
    ensures var end := RunEnd(kind, text, start, i); forall k :: start <= k < end ==> BodyChar(kind, k == start, text[k])
    decreases |text| - i
  {
    if i < |text| && BodyChar(kind, i == start, text[i]) {
      RunEndIsBody(kind, text, start, i + 1);
    }
  }

  lemma {:induction false} RunEndIs(kind: Kind, text: string, start: nat, i: nat, end: nat)
    requires start <= i <= end < |text| && !BodyChar(kind, end == start, text[end])
    requires forall k :: i <= k < end ==> BodyChar(kind, k == start, text[k])
    ensures RunEnd(kind, text, start, i) == end
    decreases end - i
  {
    if i < end {
      RunEndIs(kind, text, start, i + 1, end);
    }
  }

  lemma TokenBody(kind: Kind, text: string, i: nat, j: nat)
    requires IsToken(kind, text, i, j)
    ensures forall k :: i < k < j ==> BodyChar(kind, k == i + 1, text[k])
    ensures forall first :: !BodyChar(kind, first, text[j])
  {
    var body := text[i + 1..j];
    forall k | i < k < j ensures BodyChar(kind, k == i + 1, text[k]) {
      assert body[k - i - 1] == text[k];
    }
  }

  lemma MatchAtSigilIsToken(kind: Kind, text: string, start: nat)
    ensures var m := MatchAtSigil(kind, text, start);
            && (m.Some? && (start == 0 || IsSpace(text[start - 1])) ==>
                  m.value.kind == kind && IsTokenMatch(text, m.value))
            && (forall j: nat :: IsToken(kind, text, start, j) ==> m == Some(Match(kind, text[start + 1..j], start, j)))
  {
    if start < |text| {
      RunEndIsBody(kind, text, start + 1, start + 1);
      forall j: nat | IsToken(kind, text, start, j) ensures j == RunEnd(kind, text, start + 1, start + 1) {
        TokenBody(kind, text, start, j);
        RunEndIs(kind, text, start + 1, start + 1, j);
      }
    }
  }

  lemma MatchAtIsToken(kind: Kind, text: string, index: nat)
    requires index < |text|
    ensures var m := MatchAt(kind, text, index);
            && (m.Some? ==> m.value.kind == kind && IsTokenMatch(text, m.value) && m.value.start <= index + 1)
            && (forall i: nat, j: nat :: IsToken(kind, text, i, j) && (i == index + 1 || i == index == 0) ==>
                  m == Some(Match(kind, text[i + 1..j], i, j)))
  {
    MatchAtSigilIsToken(kind, text, 0);
    MatchAtSigilIsToken(kind, text, index + 1);
  }

  lemma {:induction false} MatchesAreTokens(kind: Kind, text: string, index: nat)
    requires index <= |text|
    ensures forall m :: m in MatchesFrom(kind, text, index) ==>
      m.kind == kind && IsTokenMatch(text, m) && index <= m.start
    decreases |text| - index
  {
    if index < |text| {
      MatchAtIsToken(kind, text, index);
      match MatchAt(kind, text, index)
      case Some(found) => MatchesAreTokens(kind, text, found.end);
      case None => MatchesAreTokens(kind, text, index + 1);
    }
  }

  /** Searching from before its sigil, or from the very start, finds a token. */
  lemma {:induction false} TokenIsFound(kind: Kind, text: string, index: nat, i: nat, j: nat)
    requires IsToken(kind, text, i, j)
    requires index < i || index == i == 0
    ensures Match(kind, text[i + 1..j], i, j) in MatchesFrom(kind, text, index)
    decreases |text| - index
  {
    MatchAtIsToken(kind, text, index);
    match MatchAt(kind, text, index)
    case Some(found) =>
      if found.start != i {
        TokensDoNotOverlap(kind, kind, text, found.start, found.end, i, j);
        TokenIsFound(kind, text, found.end, i, j);
      } else {
        TokensDoNotOverlap(kind, kind, text, i, found.end, i, j);
      }
    case None => TokenIsFound(kind, text, index + 1, i, j);
  }

  lemma TokenHasNoSpace(kind: Kind, text: string, i: nat, j: nat)
    requires IsToken(kind, text, i, j)
    ensures forall k :: i <= k < j ==> !IsSpace(text[k])
  {
    TokenBody(kind, text, i, j);
  }

  /** A token that begins after another one begins after its end. */
  lemma TokensDoNotOverlap(kind: Kind, kind': Kind, text: string, i: nat, j: nat, i': nat, j': nat)
    requires IsToken(kind, text, i, j) && IsToken(kind', text, i', j') && i <= i'
    ensures i < i' ==> j < i'
    ensures i == i' ==> kind == kind' && j == j'
  {
    TokenHasNoSpace(kind, text, i, j);
    TokenHasNoSpace(kind', text, i', j');
  }

  ghost predicate Ascending(ms: seq<Match>) {
    forall p, q :: 0 <= p < q < |ms| ==> ms[p].start < ms[q].start
  }

  ghost predicate DistinctStarts(ms: seq<Match>) {
    forall p, q :: 0 <= p < q < |ms| ==> ms[p].start != ms[q].start
  }

  lemma {:induction false} InsertMatchSorts(ms: seq<Match>, m: Match)
    requires Ascending(ms)
    requires forall k :: 0 <= k < |ms| ==> ms[k].start != m.start
    ensures Ascending(InsertMatch(ms, m))
    ensures forall x :: x in InsertMatch(ms, m) <==> x in ms || x == m
  {
    if !(ms == [] || ms[|ms| - 1].start <= m.start) {
      var front, last := ms[..|ms| - 1], ms[|ms| - 1];
      InsertMatchSorts(front, m);
      var r := InsertMatch(front, m);
      forall p | 0 <= p < |r| ensures r[p].start < last.start {
        assert r[p] in r;
      }
      assert ms == front + [last];
    }
  }

  lemma {:induction false} SortMatchesSorts(ms: seq<Match>)
    requires DistinctStarts(ms)
    ensures Ascending(SortMatches(ms))
    ensures forall x :: x in SortMatches(ms) <==> x in ms
  {
    if ms != [] {
      var front, last := ms[..|ms| - 1], ms[|ms| - 1];
      SortMatchesSorts(front);
      var sorted := SortMatches(front);
      forall k | 0 <= k < |sorted| ensures sorted[k].start != last.start {
        assert sorted[k] in front;
      }
      InsertMatchSorts(sorted, last);
      assert ms == front + [last];
    }
  }

  lemma {:induction false} MatchesAscend(kind: Kind, text: string, index: nat)
    requires index <= |text|
    ensures Ascending(MatchesFrom(kind, text, index))
    decreases |text| - index
  {
    if index < |text| {
      match MatchAt(kind, text, index)
      case Some(found) =>
        MatchesAscend(kind, text, found.end);
        MatchesAreTokens(kind, text, found.end);
        var rest := MatchesFrom(kind, text, found.end);
        forall k | 0 <= k < |rest| ensures found.start < rest[k].start {
          assert rest[k] in rest;
        }
      case None =>
        MatchesAscend(kind, text, index + 1);
        assert MatchesFrom(kind, text, index) == MatchesFrom(kind, text, index + 1);
    }
  }

  /** Mentions and skills never begin at the same place. */
  lemma BothSearchesDistinct(text: string)
    ensures DistinctStarts(MatchesFrom(MentionKind, text, 0) + MatchesFrom(SkillKind, text, 0))
  {
    MatchesAscend(MentionKind, text, 0);
    MatchesAscend(SkillKind, text, 0);
    MatchesAreTokens(MentionKind, text, 0);
    MatchesAreTokens(SkillKind, text, 0);
    var mentions, skills := MatchesFrom(MentionKind, text, 0), MatchesFrom(SkillKind, text, 0);
    forall p, q | 0 <= p < |mentions| && 0 <= q < |skills| ensures mentions[p].start != skills[q].start {
      assert mentions[p] in mentions && skills[q] in skills;
    }
  }

  lemma FoundIffToken(text: string, m: Match)
    ensures m in MatchesFrom(MentionKind, text, 0) + MatchesFrom(SkillKind, text, 0) <==> IsTokenMatch(text, m)
  {
    MatchesAreTokens(MentionKind, text, 0);
    MatchesAreTokens(SkillKind, text, 0);
    if IsTokenMatch(text, m) {
      TokenIsFound(m.kind, text, 0, m.start, m.end);
    }
  }

  /** Both searches together find every token and nothing else, in order. */
  lemma CollectedAreTokens(text: string)
    ensures forall m :: m in CollectMatches(text) <==> IsTokenMatch(text, m)
    ensures Ascending(CollectMatches(text))
  {
    var found := MatchesFrom(MentionKind, text, 0) + MatchesFrom(SkillKind, text, 0);
    BothSearchesDistinct(text);
    SortMatchesSorts(found);
    forall m ensures m in found <==> IsTokenMatch(text, m) {
      FoundIffToken(text, m);
    }
  }

  /** The match names the stretch of text it stands for. */
  ghost predicate Fits(text: string, m: Match) {
    m.end == m.start + 1 + |m.value| && m.end <= |text| && text[m.start..m.end] == [Sigil(m.kind)] + m.value
  }

  lemma TokenFits(text: string, m: Match)
    requires IsTokenMatch(text, m)
    ensures Fits(text, m)
  {
    assert text[m.start..m.end] == [text[m.start]] + text[m.start + 1..m.end];
  }

  /** Each match begins at or after `cursor` and the end of the one before it. */
  ghost predicate Chain(text: string, ms: seq<Match>, cursor: nat)
    decreases |ms|
  {
    if ms == [] then cursor <= |text|
    else cursor <= ms[0].start && Fits(text, ms[0]) && Chain(text, ms[1..], ms[0].end)
  }

  lemma {:induction false} SortedTokensChain(text: string, ms: seq<Match>, cursor: nat)
    requires Ascending(ms) && cursor <= |text|
    requires forall m :: m in ms ==> IsTokenMatch(text, m)
    requires ms != [] ==> cursor <= ms[0].start
    ensures Chain(text, ms, cursor)
    decreases |ms|
  {
    if ms != [] {
      assert ms[0] in ms;
      TokenFits(text, ms[0]);
      if |ms| > 1 {
        assert ms[1] in ms;
        TokensDoNotOverlap(ms[0].kind, ms[1].kind, text, ms[0].start, ms[0].end, ms[1].start, ms[1].end);
      }
      SortedTokensChain(text, ms[1..], ms[0].end);
    }
  }

  lemma CollectedChain(text: string)
    ensures Chain(text, CollectMatches(text), 0)
  {
    CollectedAreTokens(text);
    SortedTokensChain(text, CollectMatches(text), 0);
  }

  // ----- segments of one text slice -----

  function GapText(text: string): seq<Segment> {
    if text == [] then [] else [Text(text)]
  }

  /** What is left of `text` from `cursor` on, cut at the matches. */
  function Cut(text: string, ms: seq<Match>, cursor: nat): seq<Segment>
    requires Chain(text, ms, cursor)
    decreases |ms|
  {
    if ms == [] then GapText(text[cursor..])
    else GapText(text[cursor..ms[0].start]) + [Token(ms[0].kind, ms[0].value)] + Cut(text, ms[1..], ms[0].end)
  }

  function TextSegments(text: string): seq<Segment> {
    CollectedChain(text);
    Cut(text, CollectMatches(text), 0)
  }

  /** `pushTextSegment`: text behind text extends it. */
  function PushText(segments: seq<Segment>, text: string): seq<Segment> {
    if text == [] then segments
    else if segments != [] && segments[|segments| - 1].Text?
    then segments[..|segments| - 1] + [Text(segments[|segments| - 1].text + text)]
    else segments + [Text(text)]
  }

  lemma CutStep(segments: seq<Segment>, text: string, ms: seq<Match>, cursor: nat)
    requires Chain(text, ms, cursor) && ms != []
    requires segments == [] || segments[|segments| - 1].Token?
    ensures PushText(segments, text[cursor..ms[0].start]) + [Token(ms[0].kind, ms[0].value)]
            + Cut(text, ms[1..], ms[0].end)
         == segments + Cut(text, ms, cursor)
  {
    var gap: seq<Segment> := GapText(text[cursor..ms[0].start]);
    var token: seq<Segment> := [Token(ms[0].kind, ms[0].value)];
    var rest: seq<Segment> := Cut(text, ms[1..], ms[0].end);
    assert PushText(segments, text[cursor..ms[0].start]) == segments + gap;
    Reassociate(segments, gap, token, rest);
  }

  lemma Reassociate<T>(a: seq<T>, b: seq<T>, c: seq<T>, d: seq<T>)
    ensures a + b + c + d == a + (b + c + d)
  {
  }

  /** The loop cuts at every match: no match is skipped for lying inside an earlier token
      and no two text segments are merged. */
  method SplitText(text: string) returns (segments: seq<Segment>)
    ensures segments == TextSegments(text)
  {
    segments := [];
    if text == [] {
      return;
    }
    var matches := CollectMatches(text);
    CollectedChain(text);
    var cursor: nat := 0;
    for k := 0 to |matches|
      invariant Chain(text, matches[k..], cursor)
      invariant segments + Cut(text, matches[k..], cursor) == TextSegments(text)
      invariant segments == [] || segments[|segments| - 1].Token?
    {
      var m := matches[k];
      CutStep(segments, text, matches[k..], cursor);
      assert matches[k..][1..] == matches[k + 1..];
      if m.start >= cursor {
        if m.start > cursor {
          segments := PushText(segments, text[cursor..m.start]);
        }
        segments := segments + [Token(m.kind, m.value)];
        cursor := m.end;
      }
    }
    assert matches[|matches|..] == [];
    if cursor < |text| {
      segments := PushText(segments, text[cursor..]);
    }
  }

  // ----- segments of a whole prompt -----

  function ContextAt(contexts: seq<TerminalContext>, k: nat): Option<TerminalContext> {
    if k < |contexts| then Some(contexts[k]) else None
  }

  /** The index of the first placeholder from `cursor` on, or the end of the prompt. */
  function NextPlaceholder(prompt: string, cursor: nat): (i: nat)
    requires cursor <= |prompt|
    ensures cursor <= i <= |prompt|
    ensures i < |prompt| ==> prompt[i] == PLACEHOLDER
    ensures forall k :: cursor <= k < i ==> prompt[k] != PLACEHOLDER
    decreases |prompt| - cursor
  {
    if cursor == |prompt| || prompt[cursor] == PLACEHOLDER then cursor else NextPlaceholder(prompt, cursor + 1)
  }

  datatype Slice = TextSlice(text: string, promptOffset: nat) | PlaceholderSlice(promptOffset: nat)

  function GapSlice(text: string, promptOffset: nat): seq<Slice> {
    if text == [] then [] else [TextSlice(text, promptOffset)]
  }

  /** The placeholders from `cursor` on and the non-empty stretches of text between them. */
  function SlicesFrom(prompt: string, cursor: nat): seq<Slice>
    requires cursor <= |prompt|
    decreases |prompt| - cursor
  {
    var i := NextPlaceholder(prompt, cursor);
    GapSlice(prompt[cursor..i], cursor)
    + if i == |prompt| then [] else [PlaceholderSlice(i)] + SlicesFrom(prompt, i + 1)
  }

  lemma PushTwo<T>(s: seq<T>, g: seq<T>, x: T, rest: seq<T>)
    ensures s + g + [x] + rest == s + (g + ([x] + rest))
  {
  }

  lemma SliceStep(slices: seq<Slice>, prompt: string, cursor: nat, i: nat)
    requires cursor <= i < |prompt| && NextPlaceholder(prompt, cursor) == i
    ensures slices + GapSlice(prompt[cursor..i], cursor) + [PlaceholderSlice(i)] + SlicesFrom(prompt, i + 1)
         == slices + SlicesFrom(prompt, cursor)
  {
    var rest := SlicesFrom(prompt, i + 1);
    assert SlicesFrom(prompt, cursor) == GapSlice(prompt[cursor..i], cursor) + ([PlaceholderSlice(i)] + rest);
    PushTwo(slices, GapSlice(prompt[cursor..i], cursor), PlaceholderSlice(i), rest);
  }

  /** `forEachPromptSegmentSlice` with a visitor that never stops: the slices it is called
      with, in order. */
  method PromptSlices(prompt: string) returns (slices: seq<Slice>)
    ensures slices == SlicesFrom(prompt, 0)
  {
    ghost var whole := SlicesFrom(prompt, 0);
    slices := [];
    assert [] + whole == whole;
    var textCursor: nat := 0;
    for index := 0 to |prompt|
      invariant textCursor <= index <= NextPlaceholder(prompt, textCursor)
      invariant slices + SlicesFrom(prompt, textCursor) == whole
    {
      if prompt[index] == PLACEHOLDER {
        slices := PushToPlaceholder(slices, prompt, textCursor, index);
        textCursor := index + 1;
      }
    }
    LastSlice(slices, prompt, textCursor);
    slices := PushSlice(slices, prompt, textCursor, |prompt|);
  }

  /** The text before a placeholder and the placeholder. */
  method PushToPlaceholder(slices: seq<Slice>, prompt: string, textCursor: nat, index: nat) returns (pushed: seq<Slice>)
    requires textCursor <= index < |prompt| && NextPlaceholder(prompt, textCursor) == index
    ensures pushed + SlicesFrom(prompt, index + 1) == slices + SlicesFrom(prompt, textCursor)
  {
    SliceStep(slices, prompt, textCursor, index);
    pushed := PushSlice(slices, prompt, textCursor, index);
    pushed := pushed + [PlaceholderSlice(index)];
  }

  /** The visitor is only called with text that is not empty. */
  method PushSlice(slices: seq<Slice>, prompt: string, textCursor: nat, end: nat) returns (pushed: seq<Slice>)
    requires textCursor <= end <= |prompt|
    ensures pushed == slices + GapSlice(prompt[textCursor..end], textCursor)
  {
    pushed := slices;
    if textCursor < end {
      pushed := pushed + [TextSlice(prompt[textCursor..end], textCursor)];
    }
  }

  lemma LastSlice(slices: seq<Slice>, prompt: string, cursor: nat)
    requires cursor <= |prompt| && NextPlaceholder(prompt, cursor) == |prompt|
    ensures slices + GapSlice(prompt[cursor..|prompt|], cursor) == slices + SlicesFrom(prompt, cursor)
  {
  }

  /** What the visitor pushes for one slice: `split` of a text slice, and for a
      placeholder the `k`-th context. */
  function VisitOne(split: string -> seq<Segment>, slice: Slice, contexts: seq<TerminalContext>, k: nat): seq<Segment> {
    match slice
    case TextSlice(text, _) => split(text)
    case PlaceholderSlice(_) => [Terminal(ContextAt(contexts, k))]
  }

  function NextContext(slice: Slice, k: nat): nat {
    if slice.PlaceholderSlice? then k + 1 else k
  }

  function Visit(split: string -> seq<Segment>, slices: seq<Slice>, contexts: seq<TerminalContext>, k: nat): seq<Segment> {
    if slices == [] then []
    else VisitOne(split, slices[0], contexts, k) + Visit(split, slices[1..], contexts, NextContext(slices[0], k))
  }

  function PromptSegments(prompt: string, contexts: seq<TerminalContext>): seq<Segment> {
    Visit(TextSegments, SlicesFrom(prompt, 0), contexts, 0)
  }

  lemma VisitStep(split: string -> seq<Segment>, segments: seq<Segment>, slices: seq<Slice>, n: nat,
                  contexts: seq<TerminalContext>, k: nat)
    requires n < |slices|
    ensures segments + VisitOne(split, slices[n], contexts, k)
            + Visit(split, slices[n + 1..], contexts, NextContext(slices[n], k))
         == segments + Visit(split, slices[n..], contexts, k)
  {
    assert slices[n..][1..] == slices[n + 1..];
    var one := VisitOne(split, slices[n], contexts, k);
    var rest := Visit(split, slices[n + 1..], contexts, NextContext(slices[n], k));
    assert segments + one + rest == segments + (one + rest);
  }

  method SplitPrompt(prompt: string, contexts: seq<TerminalContext>) returns (segments: seq<Segment>)
    ensures segments == PromptSegments(prompt, contexts)
  {
    segments := [];
    var slices := PromptSlices(prompt);
    var contextIndex: nat := 0;
    for n := 0 to |slices|
      invariant segments + Visit(TextSegments, slices[n..], contexts, contextIndex)
             == Visit(TextSegments, slices, contexts, 0)
    {
      VisitStep(TextSegments, segments, slices, n, contexts, contextIndex);
      match slices[n]
      case TextSlice(text, _) =>
        var parts := SplitText(text);
        segments := segments + parts;
      case PlaceholderSlice(_) =>
        segments := segments + [Terminal(ContextAt(contexts, contextIndex))];
        contextIndex := contextIndex + 1;
    }
  }

  /** The slices lie side by side from `cursor` to the end of the prompt, and each text
      slice is bounded by placeholders or the ends of the prompt. */
  ghost predicate Tiles(prompt: string, slices: seq<Slice>, cursor: nat)
    decreases |slices|
  {
    if slices == [] then cursor == |prompt|
    else
      match slices[0]
      case TextSlice(text, at) => IsSlice(prompt, text, cursor) && Tiles(prompt, slices[1..], cursor + |text|)
      case PlaceholderSlice(at) =>
        cursor < |prompt| && prompt[cursor] == PLACEHOLDER && Tiles(prompt, slices[1..], cursor + 1)
  }

  ghost predicate IsSlice(prompt: string, text: string, cursor: nat) {
    var end := cursor + |text|;
    && cursor < end <= |prompt| && text == prompt[cursor..end]
    && (cursor == 0 || prompt[cursor - 1] == PLACEHOLDER)
    && (end == |prompt| || prompt[end] == PLACEHOLDER)
    && PLACEHOLDER !in text
  }

  lemma TilesGap(prompt: string, cursor: nat, i: nat, rest: seq<Slice>)
    requires cursor <= |prompt| && i == NextPlaceholder(prompt, cursor)
    requires cursor == 0 || prompt[cursor - 1] == PLACEHOLDER
    requires Tiles(prompt, rest, i)
    ensures Tiles(prompt, GapSlice(prompt[cursor..i], cursor) + rest, cursor)
  {
    var gap := GapSlice(prompt[cursor..i], cursor);
    if cursor < i {
      assert (gap + rest)[1..] == rest;
    } else {
      assert gap + rest == rest;
    }
  }

  lemma {:induction false} SlicesTile(prompt: string, cursor: nat)
    requires cursor <= |prompt| && (cursor == 0 || prompt[cursor - 1] == PLACEHOLDER)
    ensures Tiles(prompt, SlicesFrom(prompt, cursor), cursor)
    decreases |prompt| - cursor
  {
    var i := NextPlaceholder(prompt, cursor);
    if i < |prompt| {
      SlicesTile(prompt, i + 1);
      var rest := [PlaceholderSlice(i)] + SlicesFrom(prompt, i + 1);
      assert rest[1..] == SlicesFrom(prompt, i + 1);
      TilesGap(prompt, cursor, i, rest);
    } else {
      TilesGap(prompt, cursor, i, []);
    }
  }

  // ----- splitting loses nothing -----

  function Print(segment: Segment): string {
    match segment
    case Text(text) => text
    case Token(kind, value) => [Sigil(kind)] + value
    case Terminal(_) => [PLACEHOLDER]
  }

  function PrintAll(segments: seq<Segment>): string {
    if segments == [] then [] else Print(segments[0]) + PrintAll(segments[1..])
  }

  lemma {:induction false} PrintAllConcat(a: seq<Segment>, b: seq<Segment>)
    ensures PrintAll(a + b) == PrintAll(a) + PrintAll(b)
  {
    if a == [] {
      assert a + b == b;
    } else {
      assert (a + b)[1..] == a[1..] + b;
      PrintAllConcat(a[1..], b);
    }
  }

  lemma PrintOne(segment: Segment)
    ensures PrintAll([segment]) == Print(segment)
  {
    assert [segment][1..] == [];
  }

  lemma PrintThree(a: seq<Segment>, b: Segment, c: seq<Segment>)
    ensures PrintAll(a + [b] + c) == PrintAll(a) + Print(b) + PrintAll(c)
  {
    PrintOne(b);
    PrintAllConcat(a, [b]);
    PrintAllConcat(a + [b], c);
  }

  lemma PrintGap(text: string)
    ensures PrintAll(GapText(text)) == text
  {
    if text != [] {
      PrintOne(Text(text));
    }
  }

  lemma SlicesJoin<T>(text: seq<T>, a: nat, b: nat, c: nat)
    requires a <= b <= c <= |text|
    ensures text[a..b] + text[b..c] + text[c..] == text[a..]
  {
  }

  lemma {:induction false} CutPrints(text: string, ms: seq<Match>, cursor: nat)
    requires Chain(text, ms, cursor)
    ensures PrintAll(Cut(text, ms, cursor)) == text[cursor..]
    decreases |ms|
  {
    if ms == [] {
      PrintGap(text[cursor..]);
    } else {
      var m := ms[0];
      CutPrints(text, ms[1..], m.end);
      PrintGap(text[cursor..m.start]);
      PrintThree(GapText(text[cursor..m.start]), Token(m.kind, m.value), Cut(text, ms[1..], m.end));
      SlicesJoin(text, cursor, m.start, m.end);
    }
  }

  lemma TextPrints(text: string)
    ensures PrintAll(TextSegments(text)) == text
  {
    CollectedChain(text);
    CutPrints(text, CollectMatches(text), 0);
    assert text[0..] == text;
  }

  function SliceLength(slice: Slice): nat {
    if slice.TextSlice? then |slice.text| else 1
  }

  ghost predicate PrintsBack(split: string -> seq<Segment>) {
    forall text :: PrintAll(split(text)) == text
  }

  lemma OneSlicePrints(split: string -> seq<Segment>, prompt: string, slices: seq<Slice>, cursor: nat,
                       contexts: seq<TerminalContext>, k: nat)
    requires PrintsBack(split) && Tiles(prompt, slices, cursor) && slices != []
    ensures var end := cursor + SliceLength(slices[0]);
            && end <= |prompt| && Tiles(prompt, slices[1..], end)
            && PrintAll(VisitOne(split, slices[0], contexts, k)) == prompt[cursor..end]
  {
    if slices[0].PlaceholderSlice? {
      PrintOne(Terminal(ContextAt(contexts, k)));
    }
  }

  lemma VisitOnePrints(split: string -> seq<Segment>, slices: seq<Slice>, contexts: seq<TerminalContext>, k: nat,
                  head: string, tail: string)
    requires slices != []
    requires PrintAll(VisitOne(split, slices[0], contexts, k)) == head
    requires PrintAll(Visit(split, slices[1..], contexts, NextContext(slices[0], k))) == tail
    ensures PrintAll(Visit(split, slices, contexts, k)) == head + tail
  {
    PrintAllConcat(VisitOne(split, slices[0], contexts, k), Visit(split, slices[1..], contexts, NextContext(slices[0], k)));
  }

  lemma TwoSlices(s: string, i: nat, j: nat)
    requires i <= j <= |s|
    ensures s[i..j] + s[j..] == s[i..]
  {
  }

  lemma {:induction false} VisitPrints(split: string -> seq<Segment>, prompt: string, slices: seq<Slice>, cursor: nat,
                                       contexts: seq<TerminalContext>, k: nat)
    requires PrintsBack(split) && Tiles(prompt, slices, cursor) && cursor <= |prompt|
    ensures PrintAll(Visit(split, slices, contexts, k)) == prompt[cursor..]
    decreases |slices|
  {
    if slices != [] {
      var end := cursor + SliceLength(slices[0]);
      OneSlicePrints(split, prompt, slices, cursor, contexts, k);
      VisitPrints(split, prompt, slices[1..], end, contexts, NextContext(slices[0], k));
      VisitOnePrints(split, slices, contexts, k, prompt[cursor..end], prompt[end..]);
      TwoSlices(prompt, cursor, end);
    }
  }

  /** Writing the segments back gives the prompt. */
  lemma SplitIsLossless(prompt: string, contexts: seq<TerminalContext>)
    ensures PrintAll(PromptSegments(prompt, contexts)) == prompt
  {
    forall text ensures PrintAll(TextSegments(text)) == text {
      TextPrints(text);
    }
    SlicesTile(prompt, 0);
    VisitPrints(TextSegments, prompt, SlicesFrom(prompt, 0), 0, contexts, 0);
    assert prompt[0..] == prompt;
  }

  // ----- and finds exactly the tokens -----

  /** `segment` is one of the segments and its text begins at `offset`. */
  ghost predicate At(segments: seq<Segment>, offset: int, segment: Segment)
    decreases |segments|
  {
    segments != []
    && ((offset == 0 && segments[0] == segment) || At(segments[1..], offset - |Print(segments[0])|, segment))
  }

  lemma {:induction false} AtConcat(a: seq<Segment>, b: seq<Segment>, offset: int, segment: Segment)
    ensures At(a + b, offset, segment) <==> At(a, offset, segment) || At(b, offset - |PrintAll(a)|, segment)
    decreases |a|
  {
    if a == [] {
      assert a + b == b;
    } else {
      assert (a + b)[1..] == a[1..] + b;
      AtConcat(a[1..], b, offset - |Print(a[0])|, segment);
    }
  }

  lemma AtOne(a: Segment, offset: int, segment: Segment)
    ensures At([a], offset, segment) <==> offset == 0 && a == segment
  {
    assert [a][1..] == [];
  }

  lemma AtThree(a: seq<Segment>, b: Segment, c: seq<Segment>, offset: int, segment: Segment)
    ensures At(a + [b] + c, offset, segment) <==>
            || At(a, offset, segment)
            || (offset == |PrintAll(a)| && b == segment)
            || At(c, offset - |PrintAll(a)| - |Print(b)|, segment)
  {
    AtConcat(a + [b], c, offset, segment);
    AtConcat(a, [b], offset, segment);
    AtOne(b, offset - |PrintAll(a)|, segment);
    PrintAllConcat(a, [b]);
    PrintOne(b);
  }

  lemma NoTokenInGap(text: string, offset: int, kind: Kind, value: string)
    ensures !At(GapText(text), offset, Token(kind, value))
  {
    if text != [] {
      AtOne(Text(text), offset, Token(kind, value));
    }
  }

  ghost predicate Contains(ms: seq<Match>, m: Match)
    decreases |ms|
  {
    ms != [] && (ms[0] == m || Contains(ms[1..], m))
  }

  lemma {:induction false} ContainsIsIn(ms: seq<Match>, m: Match)
    ensures Contains(ms, m) <==> m in ms
  {
    if ms != [] {
      ContainsIsIn(ms[1..], m);
      assert ms == [ms[0]] + ms[1..];
    }
  }

  lemma {:induction false} ChainStartsLater(text: string, ms: seq<Match>, cursor: nat, m: Match)
    requires Chain(text, ms, cursor) && Contains(ms, m)
    ensures cursor <= m.start
    decreases |ms|
  {
    if m != ms[0] {
      ChainStartsLater(text, ms[1..], ms[0].end, m);
    }
  }

  lemma AtCut(text: string, ms: seq<Match>, cursor: nat, offset: int, kind: Kind, value: string)
    requires Chain(text, ms, cursor) && ms != []
    ensures At(Cut(text, ms, cursor), offset, Token(kind, value)) <==>
            || (offset == ms[0].start - cursor && kind == ms[0].kind && value == ms[0].value)
            || At(Cut(text, ms[1..], ms[0].end), offset - (ms[0].end - cursor), Token(kind, value))
  {
    var m := ms[0];
    var gap: seq<Segment>, token: Segment := GapText(text[cursor..m.start]), Token(m.kind, m.value);
    var rest: seq<Segment> := Cut(text, ms[1..], m.end);
    assert Cut(text, ms, cursor) == gap + [token] + rest;
    NoTokenInGap(text[cursor..m.start], offset, kind, value);
    PrintGap(text[cursor..m.start]);
    AtThree(gap, token, rest, offset, Token(kind, value));
  }

  lemma {:induction false} CutTokens(text: string, ms: seq<Match>, cursor: nat, offset: int, kind: Kind, value: string)
    requires Chain(text, ms, cursor)
    ensures At(Cut(text, ms, cursor), offset, Token(kind, value)) <==>
            offset >= 0 && Contains(ms, Match(kind, value, cursor + offset, cursor + offset + 1 + |value|))
    decreases |ms|
  {
    if ms == [] {
      NoTokenInGap(text[cursor..], offset, kind, value);
    } else {
      AtCut(text, ms, cursor, offset, kind, value);
      CutTokens(text, ms[1..], ms[0].end, offset - (ms[0].end - cursor), kind, value);
      if offset >= 0 {
        var sought := Match(kind, value, cursor + offset, cursor + offset + 1 + |value|);
        if Contains(ms[1..], sought) {
          ChainStartsLater(text, ms[1..], ms[0].end, sought);
        }
      }
    }
  }

  lemma CutTokensAreMatches(text: string, ms: seq<Match>, offset: int, kind: Kind, value: string)
    requires Chain(text, ms, 0)
    ensures At(Cut(text, ms, 0), offset, Token(kind, value)) <==>
            offset >= 0 && Match(kind, value, offset, offset + 1 + |value|) in ms
  {
    CutTokens(text, ms, 0, offset, kind, value);
    if offset >= 0 {
      ContainsIsIn(ms, Match(kind, value, offset, offset + 1 + |value|));
    }
  }

  lemma TextTokensExact(text: string, offset: int, kind: Kind, value: string)
    ensures At(TextSegments(text), offset, Token(kind, value)) <==>
            offset >= 0 && IsTokenMatch(text, Match(kind, value, offset, offset + 1 + |value|))
  {
    CollectedChain(text);
    CollectedAreTokens(text);
    CutTokensAreMatches(text, CollectMatches(text), offset, kind, value);
  }

  /** A token of a prompt: as in a text slice, where placeholders bound the slices. */
  ghost predicate IsPromptToken(kind: Kind, prompt: string, i: nat, j: nat) {
    && i + 1 < j < |prompt|
    && (i == 0 || IsSpace(prompt[i - 1]) || prompt[i - 1] == PLACEHOLDER)
    && prompt[i] == Sigil(kind)
    && IsBody(kind, prompt[i + 1..j]) && PLACEHOLDER !in prompt[i + 1..j]
    && IsSpace(prompt[j])
  }

  ghost predicate HasToken(kind: Kind, prompt: string, offset: int, value: string) {
    && offset >= 0
    && IsPromptToken(kind, prompt, offset, offset + 1 + |value|)
    && prompt[offset + 1..offset + 1 + |value|] == value
  }

  /** Inside a slice between two placeholders, the tokens of the slice are the tokens of
      the prompt. */
  lemma SliceTokens(prompt: string, cursor: nat, end: nat, kind: Kind, offset: nat, value: string)
    requires cursor <= end <= |prompt| && cursor <= offset <= end
    requires cursor == 0 || prompt[cursor - 1] == PLACEHOLDER
    requires end < |prompt| ==> prompt[end] == PLACEHOLDER
    requires forall k :: cursor <= k < end ==> prompt[k] != PLACEHOLDER
    ensures var at: nat := offset - cursor;
            IsTokenMatch(prompt[cursor..end], Match(kind, value, at, at + 1 + |value|))
            <==> HasToken(kind, prompt, offset, value)
  {
    var at: nat, stop: nat := offset - cursor, offset + 1 + |value|;
    if stop < end {
      SameBody(prompt, cursor, end, offset + 1, stop);
      assert PLACEHOLDER !in prompt[offset + 1..stop];
    } else {
      TokenStaysInside(prompt, end, kind, offset, value);
    }
  }

  lemma TokenStaysInside(prompt: string, end: nat, kind: Kind, offset: nat, value: string)
    requires offset <= end <= |prompt| && (end < |prompt| ==> prompt[end] == PLACEHOLDER)
    ensures HasToken(kind, prompt, offset, value) ==> offset + 1 + |value| < end
  {
    if HasToken(kind, prompt, offset, value) {
      var stop := offset + 1 + |value|;
      var body := prompt[offset + 1..stop];
      assert forall k :: offset + 1 <= k < stop ==> prompt[k] == body[k - offset - 1] && body[k - offset - 1] in body;
      assert Sigil(kind) != PLACEHOLDER && !IsSpace(PLACEHOLDER);
    }
  }

  lemma SameBody<T>(s: seq<T>, a: nat, b: nat, i: nat, j: nat)
    requires a <= i <= j <= b <= |s|
    ensures s[a..b][i - a..j - a] == s[i..j]
  {
    var inner, outer := s[a..b][i - a..j - a], s[i..j];
    assert forall k :: 0 <= k < j - i ==> inner[k] == outer[k];
  }

  // ----- tokens and placeholders of the whole prompt -----

  ghost function PlaceholdersBefore(prompt: string, i: nat): nat
    requires i <= |prompt|
  {
    if i == 0 then 0
    else PlaceholdersBefore(prompt, i - 1) + if prompt[i - 1] == PLACEHOLDER then 1 else 0
  }

  lemma {:induction false} SameCountAcross(prompt: string, a: nat, b: nat)
    requires a <= b <= |prompt| && forall p :: a <= p < b ==> prompt[p] != PLACEHOLDER
    ensures PlaceholdersBefore(prompt, a) == PlaceholdersBefore(prompt, b)
  {
    if a < b {
      SameCountAcross(prompt, a, b - 1);
    }
  }

  /** The inline segments a prompt should have at an offset. */
  ghost predicate Expected(prompt: string, offset: int, segment: Segment, contexts: seq<TerminalContext>) {
    match segment
    case Text(_) => false
    case Token(kind, value) => HasToken(kind, prompt, offset, value)
    case Terminal(context) =>
      && 0 <= offset < |prompt| && prompt[offset] == PLACEHOLDER
      && context == ContextAt(contexts, PlaceholdersBefore(prompt, offset))
  }

  /** The inline segments of a text that is split on its own. */
  ghost predicate InlineOf(text: string, offset: int, segment: Segment) {
    segment.Token? && offset >= 0
    && IsTokenMatch(text, Match(segment.kind, segment.value, offset, offset + 1 + |segment.value|))
  }

  ghost predicate FindsTokens(split: string -> seq<Segment>) {
    forall text, offset: int, segment: Segment ::
      !segment.Text? ==> (At(split(text), offset, segment) <==> InlineOf(text, offset, segment))
  }

  lemma TextSegmentsFindTokens()
    ensures FindsTokens(TextSegments)
  {
    forall text, offset: int, segment: Segment | !segment.Text?
      ensures At(TextSegments(text), offset, segment) <==> InlineOf(text, offset, segment)
    {
      match segment
      case Token(kind, value) => TextTokensExact(text, offset, kind, value);
      case Terminal(context) => NoTerminalInText(text, offset, context);
    }
  }

  /** The inline segments of a slice are the expected ones with offsets inside it. */
  lemma SliceExact(prompt: string, text: string, cursor: nat, contexts: seq<TerminalContext>, offset: int, segment: Segment)
    requires IsSlice(prompt, text, cursor) && !segment.Text?
    ensures InlineOf(text, offset - cursor, segment) <==>
            cursor <= offset < cursor + |text| && Expected(prompt, offset, segment, contexts)
  {
    if segment.Token? {
      if cursor <= offset < cursor + |text| {
        SliceTokens(prompt, cursor, cursor + |text|, segment.kind, offset, segment.value);
      }
    } else if cursor <= offset < cursor + |text| {
      assert prompt[offset] == text[offset - cursor];
    }
  }

  lemma OneSliceExact(split: string -> seq<Segment>, prompt: string, slices: seq<Slice>, cursor: nat,
                      contexts: seq<TerminalContext>, offset: int, segment: Segment)
    requires FindsTokens(split) && Tiles(prompt, slices, cursor) && slices != [] && !segment.Text?
    requires cursor + SliceLength(slices[0]) <= |prompt|
    ensures At(VisitOne(split, slices[0], contexts, PlaceholdersBefore(prompt, cursor)), offset - cursor, segment) <==>
            cursor <= offset < cursor + SliceLength(slices[0]) && Expected(prompt, offset, segment, contexts)
  {
    match slices[0]
    case TextSlice(text, _) => SliceExact(prompt, text, cursor, contexts, offset, segment);
    case PlaceholderSlice(_) =>
      AtOne(Terminal(ContextAt(contexts, PlaceholdersBefore(prompt, cursor))), offset - cursor, segment);
  }

  lemma NoTerminalInText(text: string, offset: int, context: Option<TerminalContext>)
    ensures !At(TextSegments(text), offset, Terminal(context))
  {
    CollectedChain(text);
    NoTerminalInCut(text, CollectMatches(text), 0, offset, context);
  }

  lemma {:induction false} NoTerminalInCut(text: string, ms: seq<Match>, cursor: nat, offset: int, context: Option<TerminalContext>)
    requires Chain(text, ms, cursor)
    ensures !At(Cut(text, ms, cursor), offset, Terminal(context))
    decreases |ms|
  {
    if ms == [] {
      NoTerminalInGap(text[cursor..], offset, context);
    } else {
      var gap, token, rest := GapText(text[cursor..ms[0].start]), Token(ms[0].kind, ms[0].value), Cut(text, ms[1..], ms[0].end);
      NoTerminalInGap(text[cursor..ms[0].start], offset, context);
      NoTerminalInCut(text, ms[1..], ms[0].end, offset - |PrintAll(gap)| - |Print(token)|, context);
      AtThree(gap, token, rest, offset, Terminal(context));
    }
  }

  lemma NoTerminalInGap(text: string, offset: int, context: Option<TerminalContext>)
    ensures !At(GapText(text), offset, Terminal(context))
  {
    if text != [] {
      AtOne(Text(text), offset, Terminal(context));
    }
  }

  lemma CountAfterSlice(prompt: string, slices: seq<Slice>, cursor: nat)
    requires Tiles(prompt, slices, cursor) && slices != []
    requires cursor + SliceLength(slices[0]) <= |prompt|
    ensures PlaceholdersBefore(prompt, cursor + SliceLength(slices[0]))
         == NextContext(slices[0], PlaceholdersBefore(prompt, cursor))
  {
    if slices[0].TextSlice? {
      var text := slices[0].text;
      assert forall p :: cursor <= p < cursor + |text| ==> prompt[p] == text[p - cursor];
      SameCountAcross(prompt, cursor, cursor + |text|);
    }
  }

  lemma JoinExact(one: seq<Segment>, rest: seq<Segment>, cursor: nat, length: nat, offset: int, segment: Segment, expected: bool)
    requires |PrintAll(one)| == length
    requires At(one, offset - cursor, segment) <==> cursor <= offset < cursor + length && expected
    requires At(rest, offset - (cursor + length), segment) <==> cursor + length <= offset && expected
    ensures At(one + rest, offset - cursor, segment) <==> cursor <= offset && expected
  {
    AtConcat(one, rest, offset - cursor, segment);
  }

  lemma {:induction false} VisitExact(split: string -> seq<Segment>, prompt: string, slices: seq<Slice>, cursor: nat,
                                      contexts: seq<TerminalContext>, offset: int, segment: Segment)
    requires FindsTokens(split) && PrintsBack(split)
    requires Tiles(prompt, slices, cursor) && cursor <= |prompt| && !segment.Text?
    ensures At(Visit(split, slices, contexts, PlaceholdersBefore(prompt, cursor)), offset - cursor, segment) <==>
            cursor <= offset && Expected(prompt, offset, segment, contexts)
    decreases |slices|
  {
    if slices != [] {
      var k := PlaceholdersBefore(prompt, cursor);
      var one, rest := VisitOne(split, slices[0], contexts, k), Visit(split, slices[1..], contexts, NextContext(slices[0], k));
      OneSlicePrints(split, prompt, slices, cursor, contexts, k);
      OneSliceExact(split, prompt, slices, cursor, contexts, offset, segment);
      CountAfterSlice(prompt, slices, cursor);
      VisitExact(split, prompt, slices[1..], cursor + SliceLength(slices[0]), contexts, offset, segment);
      JoinExact(one, rest, cursor, SliceLength(slices[0]), offset, segment, Expected(prompt, offset, segment, contexts));
    }
  }

  /**
   * A prompt has a mention or skill segment exactly where a token stands, and a terminal
   * segment exactly at each placeholder; the k-th placeholder carries the k-th context.
   */
  lemma SegmentsAreExactlyTheTokens(prompt: string, contexts: seq<TerminalContext>, offset: int, segment: Segment)
    requires !segment.Text?
    ensures At(PromptSegments(prompt, contexts), offset, segment) <==> Expected(prompt, offset, segment, contexts)
  {
    forall text ensures PrintAll(TextSegments(text)) == text {
      TextPrints(text);
    }
    TextSegmentsFindTokens();
    SlicesTile(prompt, 0);
    VisitExact(TextSegments, prompt, SlicesFrom(prompt, 0), 0, contexts, offset, segment);
  }
}
