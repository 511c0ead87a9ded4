/**
 * Waiting for the server's "listening" line in a stream of chunks, over a bounded buffer
 * (apps/desktop/src/serverListeningDetector.ts:1-56). Chunks are texts, already decoded.
 */
module ListeningDetector {
  import opened Prelude

  const FRAGMENT := "Listening on http://"
  const MAX_BUFFER: nat := 8192

  datatype Outcome = Pending | Resolved | Rejected

  datatype Detector = Detector(buffer: string, outcome: Outcome)

  function StripReturns(s: string): string {
    if s == "" then "" else (if s[0] == '\r' then "" else [s[0]]) + StripReturns(s[1..])
  }

  predicate OccursAt(fragment: string, s: string, i: nat) {
    i + |fragment| <= |s| && s[i..i + |fragment|] == fragment
  }

  predicate Occurs(fragment: string, s: string) {
    exists i: nat :: i <= |s| && OccursAt(fragment, s, i)
  }

  function Last(s: string, cap: nat): (r: string)
    ensures |r| <= cap && |r| <= |s| && r == s[|s| - |r|..]
    ensures |r| == |s| || |r| == cap
  {
    if |s| > cap then s[|s| - cap..] else s
  }

  /** A push, for any fragment and cap. */
  function Pushed(d: Detector, fragment: string, cap: nat, chunk: string): Detector {
    if d.outcome != Pending then d
    else
      var text := d.buffer + StripReturns(chunk);
      if Occurs(fragment, text) then Detector(text, Resolved) else Detector(Last(text, cap), Pending)
  }

  function Failed(d: Detector): Detector {
    if d.outcome != Pending then d else d.(outcome := Rejected)
  }

  method Includes(s: string, fragment: string) returns (r: bool)
    ensures r <==> Occurs(fragment, s)
  {
    for i := 0 to |s| + 1
      invariant forall j: nat :: j < i ==> !OccursAt(fragment, s, j)
    {
      if i + |fragment| <= |s| && s[i..i + |fragment|] == fragment {
        assert OccursAt(fragment, s, i);
        return true;
      }
    }
    return false;
  }

  // ----- agreement with a search of the whole stream -----

  lemma ShiftOccurrence(fragment: string, s: string, i: nat, from: nat)
    requires from <= i && OccursAt(fragment, s, i)
    ensures OccursAt(fragment, s[from..], i - from)
  {
    assert s[from..][i - from..i - from + |fragment|] == s[i..i + |fragment|];
  }

  lemma UnshiftOccurrence(fragment: string, s: string, i: nat, from: nat)
    requires from <= |s| && OccursAt(fragment, s[from..], i)
    ensures OccursAt(fragment, s, i + from)
  {
    assert s[from..][i..i + |fragment|] == s[i + from..i + from + |fragment|];
  }

  /** Cutting the front of a text that does not hold the fragment changes nothing, if all but
      one of the fragment's characters could still be behind the cut. */
  lemma CutIsHarmless(fragment: string, before: string, cut: nat, chunk: string)
    requires cut <= |before| && !Occurs(fragment, before) && (cut > 0 ==> |before| - cut + 1 >= |fragment|)
    ensures Occurs(fragment, before + chunk) <==> Occurs(fragment, before[cut..] + chunk)
  {
    var whole := before + chunk;
    assert whole[cut..] == before[cut..] + chunk;
    if Occurs(fragment, whole) {
      var i: nat :| i <= |whole| && OccursAt(fragment, whole, i);
      if i + |fragment| <= |before| {
        assert before[i..i + |fragment|] == whole[i..i + |fragment|];
        assert OccursAt(fragment, before, i);
        assert false;
      } else {
        ShiftOccurrence(fragment, whole, i, cut);
      }
    }
    if Occurs(fragment, whole[cut..]) {
      var i: nat :| i <= |whole[cut..]| && OccursAt(fragment, whole[cut..], i);
      UnshiftOccurrence(fragment, whole, i, cut);
    }
  }

  lemma {:induction false} StripConcat(a: string, b: string)
    ensures StripReturns(a + b) == StripReturns(a) + StripReturns(b)
  {
    if a == "" {
      assert a + b == b;
    } else {
      assert (a + b)[1..] == a[1..] + b;
      StripConcat(a[1..], b);
    }
  }

  /** With `StripConcat`: carriage returns go, and every other character stays where it is. */
  lemma StripOne(c: char)
    ensures StripReturns("") == "" && StripReturns([c]) == if c == '\r' then "" else [c]
  {
    assert [c][1..] == "";
  }

  lemma {:induction false} StrippedHasNoReturns(s: string)
    ensures forall k :: 0 <= k < |StripReturns(s)| ==> StripReturns(s)[k] != '\r'
  {
    if s != "" {
      StrippedHasNoReturns(s[1..]);
    }
  }

  /** To occur is to be what stands between two other parts. */
  lemma OccursIff(fragment: string, s: string)
    ensures Occurs(fragment, s) <==> exists x: string, y: string :: s == x + fragment + y
  {
    if Occurs(fragment, s) {
      var i: nat :| i <= |s| && OccursAt(fragment, s, i);
      assert s == s[..i] + fragment + s[i + |fragment|..];
    }
    if x: string, y: string :| s == x + fragment + y {
      assert s[|x|..|x| + |fragment|] == fragment;
      assert OccursAt(fragment, s, |x|);
    }
  }

  lemma LastOfSuffix(u: string, k: nat, cap: nat)
    requires k <= |u| && (k > 0 ==> |u| - k >= cap)
    ensures Last(u[k..], cap) == Last(u, cap)
  {
    var n := |Last(u, cap)|;
    assert u[k..][|u| - k - n..] == u[|u| - n..];
  }

  lemma LastOfLast(s: string, t: string, cap: nat)
    ensures Last(Last(s, cap) + t, cap) == Last(s + t, cap)
  {
    var k := |s| - |Last(s, cap)|;
    assert (s + t)[k..] == s[k..] + t;
    LastOfSuffix(s + t, k, cap);
  }

  /** What the detector holds after the texts pushed so far, `seen` being all of them stripped. */
  ghost predicate Tracks(d: Detector, fragment: string, cap: nat, seen: string) {
    match d.outcome
    case Pending => !Occurs(fragment, seen) && d.buffer == Last(seen, cap)
    case Resolved => Occurs(fragment, seen)
    case Rejected => false
  }

  lemma OccursIsKept(fragment: string, s: string, t: string)
    requires Occurs(fragment, s)
    ensures Occurs(fragment, s + t)
  {
    var i: nat :| i <= |s| && OccursAt(fragment, s, i);
    assert (s + t)[i..i + |fragment|] == s[i..i + |fragment|];
    assert OccursAt(fragment, s + t, i);
  }

  lemma PushTracks(d: Detector, fragment: string, cap: nat, seen: string, chunk: string)
    requires Tracks(d, fragment, cap, seen) && |fragment| <= cap + 1
    ensures Tracks(Pushed(d, fragment, cap, chunk), fragment, cap, seen + StripReturns(chunk))
  {
    var text := StripReturns(chunk);
    if d.outcome == Resolved {
      OccursIsKept(fragment, seen, text);
    } else {
      var cut := |seen| - |d.buffer|;
      CutIsHarmless(fragment, seen, cut, text);
      LastOfLast(seen, text, cap);
    }
  }

  datatype Event = Chunk(text: string) | Failure

  function Run(fragment: string, cap: nat, events: seq<Event>): Detector {
    if events == [] then Detector("", Pending)
    else
      var d := Run(fragment, cap, events[..|events| - 1]);
      match events[|events| - 1]
      case Chunk(text) => Pushed(d, fragment, cap, text)
      case Failure => Failed(d)
  }

  function TextOf(events: seq<Event>): string {
    if events == [] then ""
    else
      TextOf(events[..|events| - 1])
      + match events[|events| - 1]
        case Chunk(text) => text
        case Failure => ""
  }

  ghost predicate OnlyChunks(events: seq<Event>) {
    forall i :: 0 <= i < |events| ==> events[i].Chunk?
  }

  lemma {:induction false} RunTracks(fragment: string, cap: nat, events: seq<Event>)
    requires OnlyChunks(events) && fragment != "" && |fragment| <= cap + 1
    ensures Tracks(Run(fragment, cap, events), fragment, cap, StripReturns(TextOf(events)))
  {
    if events != [] {
      var front, last := events[..|events| - 1], events[|events| - 1];
      RunTracks(fragment, cap, front);
      PushTracks(Run(fragment, cap, front), fragment, cap, StripReturns(TextOf(front)), last.text);
      StripConcat(TextOf(front), last.text);
    }
  }

  /** Before any failure the detector has resolved exactly when the fragment occurs in all the
      text so far without its carriage returns, however that text was cut into chunks; the
      buffer it keeps while waiting is bounded. */
  lemma ResolvedIff(events: seq<Event>)
    requires OnlyChunks(events)
    ensures var d := Run(FRAGMENT, MAX_BUFFER, events);
      && (d.outcome == Resolved <==> Occurs(FRAGMENT, StripReturns(TextOf(events))))
      && (d.outcome == Pending <==> !Occurs(FRAGMENT, StripReturns(TextOf(events))))
      && (d.outcome == Pending ==> |d.buffer| <= MAX_BUFFER)
  {
    RunTracks(FRAGMENT, MAX_BUFFER, events);
  }

  lemma ChunkingDoesNotMatter(a: seq<Event>, b: seq<Event>)
    requires OnlyChunks(a) && OnlyChunks(b) && TextOf(a) == TextOf(b)
    ensures Run(FRAGMENT, MAX_BUFFER, a).outcome == Run(FRAGMENT, MAX_BUFFER, b).outcome
  {
    ResolvedIff(a);
    ResolvedIff(b);
  }

  /** Once settled, nothing changes any more. */
  lemma {:induction false} SettlesOnce(fragment: string, cap: nat, before: seq<Event>, after: seq<Event>)
    requires Run(fragment, cap, before).outcome != Pending
    ensures Run(fragment, cap, before + after) == Run(fragment, cap, before)
    decreases |after|
  {
    var all := before + after;
    if after == [] {
      assert all == before;
    } else {
      assert all[..|all| - 1] == before + after[..|after| - 1];
      SettlesOnce(fragment, cap, before, after[..|after| - 1]);
    }
  }

  /** With a failure after some chunks: resolved exactly when the fragment came before it. */
  lemma FailureSettles(before: seq<Event>, after: seq<Event>)
    requires OnlyChunks(before)
    ensures Run(FRAGMENT, MAX_BUFFER, before + [Failure] + after).outcome
         == if Occurs(FRAGMENT, StripReturns(TextOf(before))) then Resolved else Rejected
  {
    ResolvedIff(before);
    var failed := before + [Failure];
    assert failed[..|failed| - 1] == before;
    SettlesOnce(FRAGMENT, MAX_BUFFER, failed, after);
  }

  // ----- the detector as the object it is -----

  /** `events` is what was pushed so far, and where a failure came between. */
  class ServerListeningDetector {
    var buffer: string
    var outcome: Outcome
    ghost var events: seq<Event>

    ghost predicate Valid()
      reads this
    {
      Detector(buffer, outcome) == Run(FRAGMENT, MAX_BUFFER, events)
    }

    constructor ()
      ensures Valid() && outcome == Pending && events == []
    {
      buffer, outcome, events := "", Pending, [];
    }

    /** Without a failure, resolved exactly when the fragment occurs in all that was pushed. */
    method Push(chunk: string)
      requires Valid()
      modifies this
      ensures Valid() && events == old(events) + [Chunk(chunk)]
      ensures OnlyChunks(events) ==> (outcome == Resolved <==> Occurs(FRAGMENT, StripReturns(TextOf(events))))
      ensures OnlyChunks(events) && outcome == Pending ==> |buffer| <= MAX_BUFFER
      ensures old(outcome) != Pending ==> outcome == old(outcome) && buffer == old(buffer)
    {
      assert (events + [Chunk(chunk)])[..|events|] == events;
      events := events + [Chunk(chunk)];
      if OnlyChunks(events) {
        ResolvedIff(events);
      }
      if outcome != Pending {
        return;
      }
      buffer := buffer + StripReturns(chunk);
      var found := Includes(buffer, FRAGMENT);
      if found {
        outcome := Resolved;
        return;
      }
      if |buffer| > MAX_BUFFER {
        buffer := buffer[|buffer| - MAX_BUFFER..];
      }
    }

    /** Settles; the first failure rejects exactly when the fragment had not come before it. */
    method Fail()
      requires Valid()
      modifies this`outcome, this`events
      ensures Valid() && events == old(events) + [Failure]
      ensures outcome != Pending && (old(outcome) != Pending ==> outcome == old(outcome))
      ensures OnlyChunks(old(events))
         ==> outcome == if Occurs(FRAGMENT, StripReturns(TextOf(old(events)))) then Resolved else Rejected
    {
      assert (events + [Failure])[..|events|] == events;
      if OnlyChunks(events) {
        ResolvedIff(events);
      }
      events := events + [Failure];
      if outcome == Pending {
        outcome := Rejected;
      }
    }
  }
}
