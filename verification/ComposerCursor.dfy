/**
 * The two cursor maps of the composer (apps/web/src/composer-logic.ts:22-25 and 45-214).
 * In collapsed coordinates a mention, a skill and a terminal context take one position
 * each; in expanded coordinates they take the length of the text they stand for.
 */
module ComposerCursor {
  import opened Prelude
  import opened ComposerSegments

  /** A cursor as callers pass it: any number, finite or not. */
  datatype JsNumber = Finite(value: real) | NonFinite

  function ClampCursor(length: nat, cursor: JsNumber): (r: nat)
    ensures r <= length
  {
    match cursor
    case NonFinite => length
    case Finite(v) => Max(0, Min(length, v.Floor))
  }

  function CollapsedLength(segment: Segment): nat {
    if segment.Text? then |segment.text| else 1
  }

  function CollapsedTotal(segments: seq<Segment>): nat {
    if segments == [] then 0 else CollapsedLength(segments[0]) + CollapsedTotal(segments[1..])
  }

  function ExpandedTotal(segments: seq<Segment>): nat {
    if segments == [] then 0 else |Print(segments[0])| + ExpandedTotal(segments[1..])
  }

  // ----- the maps on a segment list -----

  function Expand(segments: seq<Segment>, remaining: nat): nat {
    if segments == [] then 0
    else
      var length := |Print(segments[0])|;
      if segments[0].Text? then
        if remaining <= length then remaining else length + Expand(segments[1..], remaining - length)
      else if remaining <= 1 then (if remaining == 0 then 0 else length)
      else length + Expand(segments[1..], remaining - 1)
  }

  function Collapse(segments: seq<Segment>, remaining: nat): nat {
    if segments == [] then 0
    else
      var length := |Print(segments[0])|;
      if segments[0].Text? then
        if remaining <= length then remaining else length + Collapse(segments[1..], remaining - length)
      else if remaining == 0 then 0
      else if remaining <= length then 1
      else 1 + Collapse(segments[1..], remaining - length)
  }

  datatype Direction = Left | Right

  /** Some inline segment ends, or begins, at the collapsed position `cursor`. */
  predicate Adjacent(segments: seq<Segment>, cursor: int, direction: Direction) {
    segments != []
    && ((!segments[0].Text? && cursor == (if direction.Left? then 1 else 0))
        || Adjacent(segments[1..], cursor - CollapsedLength(segments[0]), direction))
  }

  // ----- the exported operations -----

  lemma NoSegmentsNoText(text: string)
    requires PromptSegments(text, []) == []
    ensures text == []
  {
    SplitIsLossless(text, []);
  }

  method ExpandSegments(segments: seq<Segment>, collapsedCursor: nat) returns (r: nat)
    ensures r == Expand(segments, collapsedCursor)
  {
    var remaining, expandedCursor: nat := collapsedCursor, 0;
    for n := 0 to |segments|
      invariant expandedCursor + Expand(segments[n..], remaining) == Expand(segments, collapsedCursor)
    {
      var segment := segments[n];
      assert segments[n..][1..] == segments[n + 1..];
      match segment
      case Token(_, value) =>
        var expandedLength := |value| + 1;
        if remaining <= 1 {
          return expandedCursor + (if remaining == 0 then 0 else expandedLength);
        }
        remaining := remaining - 1;
        expandedCursor := expandedCursor + expandedLength;
      case Terminal(_) =>
        if remaining <= 1 {
          return expandedCursor + remaining;
        }
        remaining := remaining - 1;
        expandedCursor := expandedCursor + 1;
      case Text(t) =>
        if remaining <= |t| {
          return expandedCursor + remaining;
        }
        remaining := remaining - |t|;
        expandedCursor := expandedCursor + |t|;
    }
    return expandedCursor;
  }

  method ExpandCollapsedComposerCursor(text: string, cursorInput: JsNumber) returns (r: nat)
    ensures r == Expand(PromptSegments(text, []), ClampCursor(|text|, cursorInput))
  {
    var collapsedCursor := ClampCursor(|text|, cursorInput);
    var segments := SplitPrompt(text, []);
    if |segments| == 0 {
      NoSegmentsNoText(text);
      return collapsedCursor;
    }
    r := ExpandSegments(segments, collapsedCursor);
  }

  method CollapseSegments(segments: seq<Segment>, expandedCursor: nat) returns (r: nat)
    ensures r == Collapse(segments, expandedCursor)
  {
    var remaining, collapsedCursor: nat := expandedCursor, 0;
    for n := 0 to |segments|
      invariant collapsedCursor + Collapse(segments[n..], remaining) == Collapse(segments, expandedCursor)
    {
      var segment := segments[n];
      assert segments[n..][1..] == segments[n + 1..];
      match segment
      case Token(_, value) =>
        var expandedLength := |value| + 1;
        if remaining == 0 {
          return collapsedCursor;
        }
        if remaining <= expandedLength {
          return collapsedCursor + 1;
        }
        remaining := remaining - expandedLength;
        collapsedCursor := collapsedCursor + 1;
      case Terminal(_) =>
        if remaining <= 1 {
          return collapsedCursor + remaining;
        }
        remaining := remaining - 1;
        collapsedCursor := collapsedCursor + 1;
      case Text(t) =>
        if remaining <= |t| {
          return collapsedCursor + remaining;
        }
        remaining := remaining - |t|;
        collapsedCursor := collapsedCursor + |t|;
    }
    return collapsedCursor;
  }

  method CollapseExpandedComposerCursor(text: string, cursorInput: JsNumber) returns (r: nat)
    ensures r == Collapse(PromptSegments(text, []), ClampCursor(|text|, cursorInput))
  {
    var expandedCursor := ClampCursor(|text|, cursorInput);
    var segments := SplitPrompt(text, []);
    if |segments| == 0 {
      NoSegmentsNoText(text);
      return expandedCursor;
    }
    r := CollapseSegments(segments, expandedCursor);
  }

  /** A cursor is adjacent to the token it is at, or to one behind. */
  lemma AdjacentHere(segments: seq<Segment>, n: nat, cursor: int, direction: Direction)
    requires n < |segments|
    ensures Adjacent(segments[n..], cursor, direction)
       <==> (!segments[n].Text? && cursor == if direction == Left then 1 else 0)
            || Adjacent(segments[n + 1..], cursor - CollapsedLength(segments[n]), direction)
  {
    assert segments[n..][1..] == segments[n + 1..];
  }

  method IsCollapsedCursorAdjacentToInlineToken(text: string, cursorInput: JsNumber, direction: Direction)
    returns (adjacent: bool)
    ensures var segments := PromptSegments(text, []);
            adjacent == Adjacent(segments, ClampCursor(CollapsedTotal(segments), cursorInput), direction)
  {
    var segments := SplitPrompt(text, []);
    var cursor := ClampCursor(CollapsedTotal(segments), cursorInput);
    ghost var expected := Adjacent(segments, cursor, direction);
    var collapsedOffset: nat := 0;
    assert segments[0..] == segments;
    for n := 0 to |segments|
      invariant expected == Adjacent(segments[n..], cursor - collapsedOffset, direction)
    {
      var segment := segments[n];
      AdjacentHere(segments, n, cursor - collapsedOffset, direction);
      if !segment.Text? {
        if direction == Left && cursor == collapsedOffset + 1 {
          return true;
        }
        if direction == Right && cursor == collapsedOffset {
          return true;
        }
      }
      collapsedOffset := collapsedOffset + CollapsedLength(segment);
    }
    return false;
  }

  // ----- the maps form a Galois connection -----

  lemma {:induction false} TotalIsPrintedLength(segments: seq<Segment>)
    ensures ExpandedTotal(segments) == |PrintAll(segments)|
    ensures CollapsedTotal(segments) <= ExpandedTotal(segments)
  {
    if segments != [] {
      TotalIsPrintedLength(segments[1..]);
    }
  }

  lemma {:induction false} MapsStayInRange(segments: seq<Segment>, n: nat)
    ensures Expand(segments, 0) == 0
    ensures Expand(segments, n) <= ExpandedTotal(segments)
    ensures Collapse(segments, n) <= CollapsedTotal(segments)
  {
    if segments != [] {
      MapsStayInRange(segments[1..], if segments[0].Text? then Max(0, n - CollapsedLength(segments[0])) else Max(0, n - 1));
      MapsStayInRange(segments[1..], Max(0, n - |Print(segments[0])|));
    }
  }

  /** collapse(e) <= c iff e <= expand(c), for every position of either side. */
  lemma {:induction false} GaloisConnection(segments: seq<Segment>, e: nat, c: nat)
    requires e <= ExpandedTotal(segments) && c <= CollapsedTotal(segments)
    ensures Collapse(segments, e) <= c <==> e <= Expand(segments, c)
  {
    if segments != [] {
      var length, width := |Print(segments[0])|, CollapsedLength(segments[0]);
      MapsStayInRange(segments[1..], 0);
      if e > length && c >= width {
        GaloisConnection(segments[1..], e - length, c - width);
      }
    }
  }

  lemma MapsAreMonotone(segments: seq<Segment>, m: nat, n: nat)
    requires m <= n
    ensures n <= ExpandedTotal(segments) ==> Collapse(segments, m) <= Collapse(segments, n)
    ensures n <= CollapsedTotal(segments) ==> Expand(segments, m) <= Expand(segments, n)
  {
    MapsStayInRange(segments, m);
    MapsStayInRange(segments, n);
    if n <= ExpandedTotal(segments) {
      GaloisConnection(segments, n, Collapse(segments, n));
      GaloisConnection(segments, m, Collapse(segments, n));
    }
    if n <= CollapsedTotal(segments) {
      GaloisConnection(segments, Expand(segments, m), m);
      GaloisConnection(segments, Expand(segments, m), n);
    }
  }

  /** Collapsing undoes expanding; past the end both stay at the end. */
  lemma {:induction false} CollapseUndoesExpand(segments: seq<Segment>, c: nat)
    ensures Collapse(segments, Expand(segments, c)) == Min(c, CollapsedTotal(segments))
  {
    if segments != [] {
      var length, width := |Print(segments[0])|, CollapsedLength(segments[0]);
      MapsStayInRange(segments[1..], 0);
      if c > width {
        CollapseUndoesExpand(segments[1..], c - width);
      }
    }
  }

  /** For every text and every input, valid or not, going out and back is the collapsed
      clamp. */
  lemma CollapseAfterExpandIsClamp(text: string, cursorInput: JsNumber)
    ensures var segments := PromptSegments(text, []);
            var expanded := Expand(segments, ClampCursor(|text|, cursorInput));
            (Collapse(segments, ClampCursor(|text|, Finite(expanded as real)))
             == ClampCursor(CollapsedTotal(segments), cursorInput))
  {
    var segments := PromptSegments(text, []);
    SplitIsLossless(text, []);
    TotalIsPrintedLength(segments);
    var c := ClampCursor(|text|, cursorInput);
    MapsStayInRange(segments, c);
    CollapseUndoesExpand(segments, c);
    assert (Expand(segments, c) as real).Floor == Expand(segments, c);
  }

  // ----- where expanding after collapsing lands -----

  method CollapsedLengthOf(segments: seq<Segment>) returns (total: nat)
    ensures total == CollapsedTotal(segments)
  {
    total := 0;
    for n := 0 to |segments|
      invariant total + CollapsedTotal(segments[n..]) == CollapsedTotal(segments)
    {
      assert segments[n..][1..] == segments[n + 1..];
      total := total + CollapsedLength(segments[n]);
    }
  }

  /** The greatest position not above the cursor, or the first if there is none; the same as
      going out and back. */
  method ClampCollapsedComposerCursor(text: string, cursorInput: JsNumber) returns (r: nat)
    ensures var segments := PromptSegments(text, []);
      && r <= CollapsedTotal(segments)
      && (r == 0 || cursorInput.NonFinite? || r as real <= cursorInput.value)
      && (r == CollapsedTotal(segments) || (cursorInput.Finite? && cursorInput.value < (r + 1) as real))
      && r == Collapse(segments, ClampCursor(|text|, Finite(Expand(segments, ClampCursor(|text|, cursorInput)) as real)))
  {
    var segments := SplitPrompt(text, []);
    var total := CollapsedLengthOf(segments);
    CollapseAfterExpandIsClamp(text, cursorInput);
    r := ClampCursor(total, cursorInput);
  }

  /** `e`, or the end of the inline token it lies strictly inside of. */
  ghost function Snap(segments: seq<Segment>, e: nat): nat {
    if segments == [] then e
    else
      var length := |Print(segments[0])|;
      if !segments[0].Text? && 0 < e < length then length
      else if e <= length then e
      else length + Snap(segments[1..], e - length)
  }

  lemma {:induction false} ExpandAfterCollapseSnaps(segments: seq<Segment>, e: nat)
    requires e <= ExpandedTotal(segments)
    ensures Expand(segments, Collapse(segments, e)) == Snap(segments, e)
  {
    if segments != [] {
      var length := |Print(segments[0])|;
      if e > length {
        ExpandAfterCollapseSnaps(segments[1..], e - length);
        GaloisConnection(segments[1..], e - length, 0);
        MapsStayInRange(segments[1..], 0);
      }
    }
  }

  lemma {:induction false} AtInRange(segments: seq<Segment>, offset: int, segment: Segment)
    requires At(segments, offset, segment)
    ensures 0 <= offset && offset + |Print(segment)| <= ExpandedTotal(segments)
  {
    if !(offset == 0 && segments[0] == segment) {
      AtInRange(segments[1..], offset - |Print(segments[0])|, segment);
    } else {
      assert segments[0] == segment;
    }
  }

  /** The segment a position lies strictly inside of decides where it snaps to. */
  lemma {:induction false} SnapInside(segments: seq<Segment>, e: nat, offset: int, segment: Segment)
    requires At(segments, offset, segment) && offset < e < offset + |Print(segment)|
    ensures Snap(segments, e) == if segment.Text? then e else offset + |Print(segment)|
  {
    if At(segments[1..], offset - |Print(segments[0])|, segment) {
      AtInRange(segments[1..], offset - |Print(segments[0])|, segment);
      SnapInside(segments[1..], e - |Print(segments[0])|, offset - |Print(segments[0])|, segment);
    }
  }

  lemma {:induction false} SnapMovesOnlyInside(segments: seq<Segment>, e: nat) returns (offset: int, segment: Segment)
    requires Snap(segments, e) != e
    ensures At(segments, offset, segment) && !segment.Text? && offset < e < offset + |Print(segment)|
  {
    var length := |Print(segments[0])|;
    if !segments[0].Text? && 0 < e < length {
      offset, segment := 0, segments[0];
    } else {
      offset, segment := SnapMovesOnlyInside(segments[1..], e - length);
      offset := offset + length;
    }
  }

  /** Collapsing and expanding a cursor inside the text leaves it alone, except that a
      cursor strictly inside a mention or skill goes to that token's end. */
  lemma ExpandAfterCollapse(text: string, e: nat)
    requires e <= |text|
    ensures var segments := PromptSegments(text, []);
            var landed := Expand(segments, Collapse(segments, e));
            && (forall kind, offset: int, value ::
                  HasToken(kind, text, offset, value) && offset < e < offset + 1 + |value|
                  ==> landed == offset + 1 + |value|)
            && (landed == e || exists kind, offset: int, value ::
                  HasToken(kind, text, offset, value) && offset < e < offset + 1 + |value|)
  {
    var segments := PromptSegments(text, []);
    SplitIsLossless(text, []);
    TotalIsPrintedLength(segments);
    ExpandAfterCollapseSnaps(segments, e);
    forall kind, offset: int, value | HasToken(kind, text, offset, value) && offset < e < offset + 1 + |value|
      ensures Snap(segments, e) == offset + 1 + |value|
    {
      SegmentsAreExactlyTheTokens(text, [], offset, Token(kind, value));
      SnapInside(segments, e, offset, Token(kind, value));
    }
    if Snap(segments, e) != e {
      var offset, segment := SnapMovesOnlyInside(segments, e);
      SegmentsAreExactlyTheTokens(text, [], offset, segment);
      assert HasToken(segment.kind, text, offset, segment.value);
    }
  }

  // ----- adjacency is about token boundaries -----

  lemma {:induction false} ExpandZero(segments: seq<Segment>, c: nat)
    requires c <= CollapsedTotal(segments) && Expand(segments, c) == 0
    ensures c == 0
  {
    if segments != [] && segments[0].Text? && segments[0].text == [] {
      if c > 0 {
        ExpandZero(segments[1..], c);
      }
    }
  }

  lemma ExpandPast(segments: seq<Segment>, c: nat)
    requires segments != [] && CollapsedLength(segments[0]) <= c
    ensures Expand(segments, c) == |Print(segments[0])| + Expand(segments[1..], c - CollapsedLength(segments[0]))
  {
    MapsStayInRange(segments[1..], 0);
  }

  ghost predicate IsBoundary(segments: seq<Segment>, position: int, direction: Direction) {
    exists offset: int, segment: Segment :: At(segments, offset, segment) && !segment.Text?
      && position == if direction.Left? then offset + |Print(segment)| else offset
  }

  lemma BoundaryCons(segments: seq<Segment>, position: int, direction: Direction)
    requires segments != []
    ensures IsBoundary(segments, position, direction) <==>
            || (!segments[0].Text? && position == if direction.Left? then |Print(segments[0])| else 0)
            || IsBoundary(segments[1..], position - |Print(segments[0])|, direction)
  {
    var length := |Print(segments[0])|;
    if IsBoundary(segments[1..], position - length, direction) {
      var offset: int, segment: Segment :| At(segments[1..], offset, segment) && !segment.Text?
        && position - length == if direction.Left? then offset + |Print(segment)| else offset;
      assert At(segments, offset + length, segment);
    }
    if !segments[0].Text? {
      assert At(segments, 0, segments[0]);
    }
    if IsBoundary(segments, position, direction) {
      var offset: int, segment: Segment :| At(segments, offset, segment) && !segment.Text?
        && position == if direction.Left? then offset + |Print(segment)| else offset;
      if !(offset == 0 && segments[0] == segment) {
        assert At(segments[1..], offset - length, segment);
      }
    }
  }

  lemma {:induction false} BoundaryInRange(segments: seq<Segment>, position: int, direction: Direction)
    requires IsBoundary(segments, position, direction)
    ensures if direction.Left? then position > 0 else position >= 0
  {
    var offset: int, segment: Segment :| At(segments, offset, segment) && !segment.Text?
      && position == if direction.Left? then offset + |Print(segment)| else offset;
    AtInRange(segments, offset, segment);
  }

  /** A collapsed cursor is adjacent to an inline token on its left (right) exactly when
      its expanded position is where some inline segment ends (begins). */
  lemma {:induction false} AdjacentIffBoundary(segments: seq<Segment>, c: nat, direction: Direction)
    requires c <= CollapsedTotal(segments)
    ensures Adjacent(segments, c, direction) <==> IsBoundary(segments, Expand(segments, c), direction)
  {
    if segments != [] {
      var length, width := |Print(segments[0])|, CollapsedLength(segments[0]);
      BoundaryCons(segments, Expand(segments, c), direction);
      if c >= width {
        ExpandPast(segments, c);
        AdjacentIffBoundary(segments[1..], c - width, direction);
        if Expand(segments[1..], c - width) == 0 {
          ExpandZero(segments[1..], c - width);
        }
        MapsStayInRange(segments[1..], 0);
      } else {
        NeverAdjacentBefore(segments[1..], c - width, direction);
        if IsBoundary(segments[1..], Expand(segments, c) - length, direction) {
          BoundaryInRange(segments[1..], Expand(segments, c) - length, direction);
        }
      }
    }
  }

  lemma {:induction false} NeverAdjacentBefore(segments: seq<Segment>, cursor: int, direction: Direction)
    requires cursor < 0
    ensures !Adjacent(segments, cursor, direction)
  {
    if segments != [] {
      NeverAdjacentBefore(segments[1..], cursor - CollapsedLength(segments[0]), direction);
    }
  }
}
