/**
 * The client coordinator of the orchestration event stream
 * (apps/web/src/orchestrationRecovery.ts:88-211).
 *
 * One function per operation on the record of the coordinator's closed-over variables, and
 * a class whose methods are proved against those functions. `RecoveryWorld` puts it in a
 * world.
 */
module Recovery {
  import opened Prelude

  datatype Reason = Bootstrap | SequenceGap | Resubscribe | ReplayFailed

  datatype Phase = Snapshot(reason: Reason) | Replay(reason: Reason)

  datatype Event<P> = Event(sequence: nat, payload: P)

  datatype State = State(
    latestSequence: nat,
    highestObservedSequence: nat,
    bootstrapped: bool,
    pendingReplay: bool,
    inFlight: Option<Phase>,
    replayStartSequence: Option<nat>)

  datatype Verdict = Ignore | Defer | Recover | Apply

  datatype Completion = Completion(replayMadeProgress: bool, shouldReplay: bool)

  const INITIAL := State(0, 0, false, false, None, None)

  // ----- the coordinator's operations as functions -----

  function Observe(s: State, sequence: nat): State {
    s.(highestObservedSequence := Max(s.highestObservedSequence, sequence))
  }

  function Classify(s: State, sequence: nat): (State, Verdict) {
    var o := Observe(s, sequence);
    if sequence <= o.latestSequence then (o, Ignore)
    else if !o.bootstrapped || o.inFlight.Some? then (o.(pendingReplay := true), Defer)
    else if sequence != o.latestSequence + 1 then (o.(pendingReplay := true), Recover)
    else (o, Apply)
  }

  /** The events above the cursor, in their given order. */
  function Newer<P>(events: seq<Event<P>>, latest: nat): seq<Event<P>> {
    if events == [] then []
    else
      var last := events[|events| - 1];
      var before := Newer(events[..|events| - 1], latest);
      if last.sequence > latest then before + [last] else before
  }

  /** Puts `e` behind every event whose sequence is not above its own. */
  function Insert<P>(events: seq<Event<P>>, e: Event<P>): seq<Event<P>> {
    if events == [] || events[|events| - 1].sequence <= e.sequence then events + [e]
    else Insert(events[..|events| - 1], e) + [events[|events| - 1]]
  }

  /** A stable sort by sequence. */
  function SortBySequence<P>(events: seq<Event<P>>): seq<Event<P>> {
    if events == [] then [] else Insert(SortBySequence(events[..|events| - 1]), events[|events| - 1])
  }

  function NextEvents<P>(s: State, events: seq<Event<P>>): seq<Event<P>> {
    SortBySequence(Newer(events, s.latestSequence))
  }

  function MarkApplied<P>(s: State, events: seq<Event<P>>): State {
    var next := NextEvents(s, events);
    if next == [] then s
    else
      var latest := next[|next| - 1].sequence;
      s.(latestSequence := latest, highestObservedSequence := Max(s.highestObservedSequence, latest))
  }

  function BeginSnapshot(s: State, reason: Reason): (State, bool) {
    if s.inFlight.Some? then (s.(pendingReplay := true), false)
    else (s.(inFlight := Some(Snapshot(reason))), true)
  }

  function ReplayNeeded(s: State): bool {
    s.pendingReplay || s.highestObservedSequence > s.latestSequence
  }

  function CompleteSnapshot(s: State, sequence: nat): (State, bool) {
    var latest := Max(s.latestSequence, sequence);
    var t := s.(latestSequence := latest,
                highestObservedSequence := Max(s.highestObservedSequence, latest),
                bootstrapped := true,
                inFlight := None);
    (t.(pendingReplay := false), ReplayNeeded(t))
  }

  function FailSnapshot(s: State): State {
    s.(inFlight := None)
  }

  function BeginReplay(s: State, reason: Reason): (State, bool) {
    if !s.bootstrapped || s.inFlight.Some? then (s.(pendingReplay := true), false)
    else
      (s.(pendingReplay := false,
          replayStartSequence := Some(s.latestSequence),
          inFlight := Some(Replay(reason))), true)
  }

  function CompleteReplay(s: State): (State, Completion) {
    var progress := s.replayStartSequence.Some? && s.latestSequence > s.replayStartSequence.value;
    (s.(replayStartSequence := None, inFlight := None, pendingReplay := false),
     Completion(progress, ReplayNeeded(s)))
  }

  function FailReplay(s: State): State {
    s.(replayStartSequence := None, bootstrapped := false, inFlight := None)
  }

  // ----- the coordinator as the object the source builds -----

  class Coordinator {
    var latestSequence: nat
    var highestObservedSequence: nat
    var bootstrapped: bool
    var pendingReplay: bool
    var inFlight: Option<Phase>
    var replayStartSequence: Option<nat>

    function GetState(): State
      reads this
    {
      State(latestSequence, highestObservedSequence, bootstrapped, pendingReplay, inFlight, replayStartSequence)
    }

    /** What holds of the variables whatever calls were made before, in any order. */
    ghost predicate Valid()
      reads this
    {
      && latestSequence <= highestObservedSequence
      && (replayStartSequence.Some? ==> replayStartSequence.value <= latestSequence)
    }

    /** Neither the cursor nor the frontier ever moves back. */
    twostate predicate Advanced()
      reads this
    {
      old(latestSequence) <= latestSequence && old(highestObservedSequence) <= highestObservedSequence
    }

    constructor ()
      ensures Valid() && GetState() == INITIAL
    {
      latestSequence, highestObservedSequence := 0, 0;
      bootstrapped, pendingReplay := false, false;
      inFlight, replayStartSequence := None, None;
    }

    method ObserveSequence(sequence: nat)
      requires Valid()
      modifies this`highestObservedSequence
      ensures Valid() && Advanced() && sequence <= highestObservedSequence
      ensures GetState() == Observe(old(GetState()), sequence)
    {
      highestObservedSequence := Max(highestObservedSequence, sequence);
    }

    method ResolveReplayNeedAfterRecovery() returns (shouldReplay: bool)
      requires Valid()
      modifies this`pendingReplay
      ensures Valid() && !pendingReplay
      ensures shouldReplay <==> old(pendingReplay) || latestSequence != highestObservedSequence
    {
      var observedAhead := highestObservedSequence > latestSequence;
      shouldReplay := pendingReplay || observedAhead;
      pendingReplay := false;
    }

    /** Only the event next to the cursor may be applied, and only while nothing is in
        flight; one that is put off leaves a replay remembered. */
    method ClassifyDomainEvent(sequence: nat) returns (verdict: Verdict)
      requires Valid()
      modifies this`highestObservedSequence, this`pendingReplay
      ensures Valid() && Advanced() && sequence <= highestObservedSequence
      ensures verdict == Ignore <==> sequence <= latestSequence
      ensures verdict == Apply ==> sequence == latestSequence + 1 && bootstrapped && inFlight.None?
      ensures verdict == Defer || verdict == Recover ==> pendingReplay && sequence > latestSequence
      ensures (GetState(), verdict) == Classify(old(GetState()), sequence)
    {
      ObserveSequence(sequence);
      if sequence <= latestSequence {
        return Ignore;
      }
      if !bootstrapped || inFlight.Some? {
        pendingReplay := true;
        return Defer;
      }
      if sequence != latestSequence + 1 {
        pendingReplay := true;
        return Recover;
      }
      return Apply;
    }

    /** Hands back the events above the old cursor in order, and covers the whole batch. */
    method MarkEventBatchApplied<P>(events: seq<Event<P>>) returns (next: seq<Event<P>>)
      requires Valid()
      modifies this`latestSequence, this`highestObservedSequence
      ensures Valid() && Advanced()
      ensures Sorted(next) && forall e :: e in next <==> e in events && e.sequence > old(latestSequence)
      ensures forall e :: e in events ==> e.sequence <= latestSequence
      ensures latestSequence == old(latestSequence) || exists e :: e in events && e.sequence == latestSequence
      ensures next == NextEvents(old(GetState()), events)
      ensures GetState() == MarkApplied(old(GetState()), events)
    {
      next := SortBySequence(Newer(events, latestSequence));
      assert next == NextEvents(GetState(), events);
      NextEventsMembers(GetState(), events);
      NextEventsCover(GetState(), events);
      if |next| == 0 {
        return;
      }
      latestSequence := next[|next| - 1].sequence;
      highestObservedSequence := Max(highestObservedSequence, latestSequence);
    }

    method BeginSnapshotRecovery(reason: Reason) returns (started: bool)
      requires Valid()
      modifies this`pendingReplay, this`inFlight
      ensures Valid() && (started <==> old(inFlight).None?)
      ensures if started then inFlight == Some(Snapshot(reason)) else pendingReplay && inFlight == old(inFlight)
      ensures (GetState(), started) == BeginSnapshot(old(GetState()), reason)
    {
      if inFlight.Some? {
        pendingReplay := true;
        return false;
      }
      inFlight := Some(Snapshot(reason));
      return true;
    }

    /** Covers the snapshot; without asking for a replay, everything observed is covered. */
    method CompleteSnapshotRecovery(snapshotSequence: nat) returns (shouldReplay: bool)
      requires Valid()
      modifies this
      ensures Valid() && Advanced() && bootstrapped && inFlight.None?
      ensures snapshotSequence <= latestSequence
      ensures !shouldReplay ==> latestSequence == highestObservedSequence && !old(pendingReplay)
      ensures (GetState(), shouldReplay) == CompleteSnapshot(old(GetState()), snapshotSequence)
    {
      latestSequence := Max(latestSequence, snapshotSequence);
      highestObservedSequence := Max(highestObservedSequence, latestSequence);
      bootstrapped := true;
      inFlight := None;
      shouldReplay := ResolveReplayNeedAfterRecovery();
    }

    method FailSnapshotRecovery()
      requires Valid()
      modifies this`inFlight
      ensures Valid()
      ensures GetState() == FailSnapshot(old(GetState()))
    {
      inFlight := None;
    }

    /** A replay that cannot start now is remembered. */
    method BeginReplayRecovery(reason: Reason) returns (started: bool)
      requires Valid()
      modifies this`pendingReplay, this`replayStartSequence, this`inFlight
      ensures Valid() && started == !pendingReplay && (started <==> bootstrapped && old(inFlight).None?)
      ensures started ==> replayStartSequence == Some(latestSequence) && inFlight == Some(Replay(reason))
      ensures (GetState(), started) == BeginReplay(old(GetState()), reason)
    {
      if !bootstrapped || inFlight.Some? {
        pendingReplay := true;
        return false;
      }
      pendingReplay := false;
      replayStartSequence := Some(latestSequence);
      inFlight := Some(Replay(reason));
      return true;
    }

    /** Progress is a cursor that moved since the replay began; without asking for another
        replay, everything observed is covered. */
    method CompleteReplayRecovery() returns (completion: Completion)
      requires Valid()
      modifies this`pendingReplay, this`replayStartSequence, this`inFlight
      ensures Valid() && inFlight.None?
      ensures !completion.shouldReplay ==> latestSequence == highestObservedSequence && !old(pendingReplay)
      ensures completion.replayMadeProgress
         <==> old(replayStartSequence).Some? && old(replayStartSequence) != Some(latestSequence)
      ensures (GetState(), completion) == CompleteReplay(old(GetState()))
    {
      var progress := replayStartSequence.Some? && latestSequence > replayStartSequence.value;
      replayStartSequence := None;
      inFlight := None;
      var shouldReplay := ResolveReplayNeedAfterRecovery();
      completion := Completion(progress, shouldReplay);
    }

    method FailReplayRecovery()
      requires Valid()
      modifies this`replayStartSequence, this`bootstrapped, this`inFlight
      ensures Valid() && !bootstrapped
      ensures GetState() == FailReplay(old(GetState()))
    {
      replayStartSequence := None;
      bootstrapped := false;
      inFlight := None;
    }
  }

  // ----- what a batch turns into -----

  ghost predicate Sorted<P>(events: seq<Event<P>>) {
    forall i, j :: 0 <= i < j < |events| ==> events[i].sequence <= events[j].sequence
  }

  ghost predicate Increasing<P>(events: seq<Event<P>>) {
    forall i, j :: 0 <= i < j < |events| ==> events[i].sequence < events[j].sequence
  }

  ghost predicate DistinctSequences<P>(events: seq<Event<P>>) {
    forall i, j :: 0 <= i < j < |events| ==> events[i].sequence != events[j].sequence
  }

  lemma {:induction false} InsertSorts<P>(events: seq<Event<P>>, e: Event<P>)
    requires Sorted(events)
    ensures Sorted(Insert(events, e))
    ensures multiset(Insert(events, e)) == multiset(events) + multiset{e}
  {
    if events == [] || events[|events| - 1].sequence <= e.sequence {
    } else {
      var front, last := events[..|events| - 1], events[|events| - 1];
      assert events == front + [last];
      InsertSorts(front, e);
      var r := Insert(front, e);
      forall i | 0 <= i < |r| ensures r[i].sequence <= last.sequence {
        assert r[i] in multiset(r);
        assert r[i] in multiset(front) || r[i] == e;
        if r[i] in multiset(front) {
          assert r[i] in front;
        }
      }
    }
  }

  lemma {:induction false} SortBySequenceSorts<P>(events: seq<Event<P>>)
    ensures Sorted(SortBySequence(events))
    ensures multiset(SortBySequence(events)) == multiset(events)
  {
    if events != [] {
      var front, last := events[..|events| - 1], events[|events| - 1];
      assert events == front + [last];
      SortBySequenceSorts(front);
      InsertSorts(SortBySequence(front), last);
    }
  }

  lemma {:induction false} NewerIsAll<P>(events: seq<Event<P>>, latest: nat)
    requires forall e :: e in events ==> e.sequence > latest
    ensures Newer(events, latest) == events
  {
    if events != [] {
      var front, last := events[..|events| - 1], events[|events| - 1];
      assert events == front + [last];
      assert last in events;
      NewerIsAll(front, latest);
    }
  }

  lemma {:induction false} NewerMembers<P>(events: seq<Event<P>>, latest: nat)
    ensures forall e :: e in Newer(events, latest) ==> e in events && e.sequence > latest
    ensures forall e :: e in events && e.sequence > latest ==> e in Newer(events, latest)
  {
    if events != [] {
      var front, last := events[..|events| - 1], events[|events| - 1];
      assert events == front + [last];
      NewerMembers(front, latest);
    }
  }

  /** The coordinator hands back what is above its cursor, and nothing it leaves out is. */
  lemma NextEventsMembers<P>(s: State, events: seq<Event<P>>)
    ensures Sorted(NextEvents(s, events))
    ensures forall e :: e in NextEvents(s, events) ==> e in events && e.sequence > s.latestSequence
    ensures forall e :: e in events && e.sequence > s.latestSequence ==> e in NextEvents(s, events)
  {
    var newer := Newer(events, s.latestSequence);
    NewerMembers(events, s.latestSequence);
    SortBySequenceSorts(newer);
    forall e | e in NextEvents(s, events) ensures e in newer {
      assert e in multiset(NextEvents(s, events));
    }
    forall e | e in newer ensures e in NextEvents(s, events) {
      assert e in multiset(newer);
    }
  }

  /** The new cursor is not below any event of the batch, and is the sequence of one of them
      if it moved. */
  lemma NextEventsCover<P>(s: State, events: seq<Event<P>>)
    ensures var latest := MarkApplied(s, events).latestSequence;
      && s.latestSequence <= latest
      && (forall e :: e in events ==> e.sequence <= latest)
      && (latest == s.latestSequence || exists e :: e in events && e.sequence == latest)
  {
    var next := NextEvents(s, events);
    NextEventsMembers(s, events);
    forall e | e in events && e.sequence > s.latestSequence ensures e in next {
      assert e in NextEvents(s, events);
    }
    if next != [] {
      var last := next[|next| - 1];
      assert last in NextEvents(s, events);
      forall e | e in events ensures e.sequence <= MarkApplied(s, events).latestSequence {
        assert e.sequence > s.latestSequence ==> e in next;
      }
    }
  }

  lemma SameLast<P>(s: seq<Event<P>>, t: seq<Event<P>>)
    requires Sorted(s) && Increasing(t) && multiset(s) == multiset(t)
    requires 0 < |s| == |t|
    ensures s[|s| - 1] == t[|t| - 1]
  {
    var x, y := s[|s| - 1], t[|t| - 1];
    assert x in multiset(t) && y in multiset(s);
    var i :| 0 <= i < |t| && t[i] == x;
    var j :| 0 <= j < |s| && s[j] == y;
    assert x.sequence <= y.sequence && y.sequence <= x.sequence;
  }

  lemma MultisetFront<T>(s: seq<T>)
    requires s != []
    ensures multiset(s[..|s| - 1]) == multiset(s) - multiset{s[|s| - 1]}
  {
    assert s == s[..|s| - 1] + [s[|s| - 1]];
  }

  lemma SameLength<T>(s: seq<T>, t: seq<T>)
    requires multiset(s) == multiset(t)
    ensures |s| == |t|
  {
    assert |s| == |multiset(s)| == |multiset(t)| == |t|;
  }

  lemma SameFronts<P>(s: seq<Event<P>>, t: seq<Event<P>>)
    requires Sorted(s) && Increasing(t) && multiset(s) == multiset(t)
    requires 0 < |s| == |t|
    ensures multiset(s[..|s| - 1]) == multiset(t[..|t| - 1])
  {
    SameLast(s, t);
    MultisetFront(s);
    MultisetFront(t);
  }

  /** A sorted list holding the same events as an increasing one is that list. */
  lemma {:induction false} SortedPermutationIsUnique<P>(s: seq<Event<P>>, t: seq<Event<P>>)
    requires Sorted(s) && Increasing(t) && multiset(s) == multiset(t)
    ensures s == t
    decreases |s|
  {
    SameLength(s, t);
    if s != [] {
      var n := |s| - 1;
      SameFronts(s, t);
      SameLast(s, t);
      SortedPermutationIsUnique(s[..n], t[..n]);
      assert s == s[..n] + [s[n]];
    }
  }

  lemma {:induction false} DistinctIsMultisetProperty<P>(s: seq<Event<P>>, t: seq<Event<P>>)
    requires multiset(s) == multiset(t) && Sorted(t)
    requires DistinctSequences(s)
    ensures Increasing(t)
  {
    forall i, j | 0 <= i < j < |t| ensures t[i].sequence < t[j].sequence {
      if t[i].sequence == t[j].sequence {
        TwoInMultiset(t, i, j);
        TwoPositions(s, t[i], t[j]);
      }
    }
  }

  lemma TwoInMultiset<T>(t: seq<T>, i: int, j: int)
    requires 0 <= i < j < |t|
    ensures multiset{t[i], t[j]} <= multiset(t)
  {
    assert t == t[..i] + [t[i]] + t[i + 1..j] + [t[j]] + t[j + 1..];
  }

  lemma RestHolds<T>(s: seq<T>, i: nat, b: T)
    requires i < |s| && multiset{s[i], b} <= multiset(s)
    ensures b in s[..i] + s[i + 1..]
  {
    var rest := s[..i] + s[i + 1..];
    assert s == s[..i] + [s[i]] + s[i + 1..];
    assert multiset(s) == multiset(rest) + multiset{s[i]};
    assert multiset{s[i], b} == multiset{s[i]} + multiset{b};
    assert multiset(rest)[b] >= 1;
  }

  lemma TwoPositions<P>(s: seq<Event<P>>, a: Event<P>, b: Event<P>)
    requires multiset{a, b} <= multiset(s)
    ensures exists i, j :: 0 <= i < j < |s| && multiset{s[i], s[j]} == multiset{a, b}
  {
    assert a in multiset(s);
    var i :| 0 <= i < |s| && s[i] == a;
    var rest := s[..i] + s[i + 1..];
    RestHolds(s, i, b);
    var k :| 0 <= k < |rest| && rest[k] == b;
    if k < i {
      assert s[k] == b && multiset{s[k], s[i]} == multiset{a, b};
    } else {
      assert s[k + 1] == b && multiset{s[i], s[k + 1]} == multiset{a, b};
    }
  }

  /**
   * A batch comes out strictly ordered, so that nothing in it is applied twice, exactly
   * when its events above the cursor carry distinct sequences: the coordinator sorts
   * and filters but does not drop duplicates inside one batch.
   */
  lemma {:induction false} BatchAppliesOnceIffDistinct<P>(s: State, events: seq<Event<P>>)
    ensures Increasing(NextEvents(s, events)) <==> DistinctSequences(Newer(events, s.latestSequence))
    ensures Sorted(NextEvents(s, events))
    ensures multiset(NextEvents(s, events)) == multiset(Newer(events, s.latestSequence))
  {
    var newer := Newer(events, s.latestSequence);
    var next := NextEvents(s, events);
    SortBySequenceSorts(newer);
    if DistinctSequences(newer) {
      DistinctIsMultisetProperty(newer, next);
    }
    if Increasing(next) {
      forall i, j | 0 <= i < j < |newer| ensures newer[i].sequence != newer[j].sequence {
        TwoInMultiset(newer, i, j);
        TwoPositions(next, newer[i], newer[j]);
        var a, b :| 0 <= a < b < |next| && multiset{next[a], next[b]} == multiset{newer[i], newer[j]};
        assert next[a] in multiset{newer[i], newer[j]} && next[b] in multiset{newer[i], newer[j]};
        assert newer[i] in multiset{next[a], next[b]} && newer[j] in multiset{next[a], next[b]};
      }
    }
  }

  /** Two copies of one event in a batch are both handed back to be applied. */
  lemma DuplicateInBatchIsAppliedTwice()
    ensures NextEvents(INITIAL, [Event(1, 'a'), Event(1, 'a')]) == [Event(1, 'a'), Event(1, 'a')]
  {
    var e := Event(1, 'a');
    assert [e, e][..1] == [e] && [e][..0] == [];
    assert Newer([e], 0) == [e];
    assert Newer([e, e], 0) == [e, e];
    assert SortBySequence([e]) == [e];
  }
}
