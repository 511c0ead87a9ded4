/**
 * The coordinator of `Recovery` in every run it can meet: a server log that only grows,
 * a live channel that may lose, repeat and reorder events, snapshots of any prefix of
 * the log taken while a request is in flight, and replays answering with all events
 * after the requested sequence (apps/server/src/ws.ts:826-848) in any order.
 *
 * The driver modelled here does what the coordinator's verdicts ask for: an event
 * judged `Apply` is applied at once, `Recover` and a completion that asks for a replay
 * leave a replay owed, and a snapshot older than the cursor is not installed, just as
 * the coordinator does not move its cursor back for it.
 */
module RecoveryWorld {
  import opened Prelude
  import opened Recovery

  /** A served snapshot: the sequence it covers and the state it carries. */
  datatype SnapshotReply<S> = SnapshotReply(sequence: nat, state: S)

  /** A served replay: its events, and how long the log was when it was served. */
  datatype ReplayReply<P> = ReplayReply(batch: seq<Event<P>>, logLength: nat)

  datatype World<P, S> = World(
    log: seq<Event<P>>,
    client: State,
    view: S,
    // The snapshot the view was last rebuilt from, and the events applied to it since.
    base: nat,
    applied: seq<Event<P>>,
    delivered: set<nat>,
    snapshotReply: Option<SnapshotReply<S>>,
    replayReply: Option<ReplayReply<P>>,
    replayOwed: bool)

  datatype Action<P> =
    | Append(event: Event<P>)
    | Deliver(index: nat)
    | StartSnapshot(reason: Reason)
    | ServeSnapshot(length: nat)
    | FinishSnapshot
    | LoseSnapshot
    | StartReplay(reason: Reason)
    | ServeReplay(batch: seq<Event<P>>)
    | FinishReplay
    | LoseReplay

  /** The application state and how one event changes it; the model fixes neither. */
  datatype Projection<!P, !S> = Projection(initial: S, apply: (S, P) -> S)

  // ----- the log -----

  /** The longest prefix of a log whose last event is not above `n`. */
  ghost function UpTo<P>(log: seq<Event<P>>, n: nat): (r: seq<Event<P>>)
    ensures r <= log
  {
    if log == [] || log[|log| - 1].sequence <= n then log else UpTo(log[..|log| - 1], n)
  }

  function LastSequence<P>(log: seq<Event<P>>): nat {
    if log == [] then 0 else log[|log| - 1].sequence
  }

  function Fold<P, S>(p: Projection<P, S>, from: S, events: seq<Event<P>>): S {
    if events == [] then from
    else p.apply(Fold(p, from, events[..|events| - 1]), events[|events| - 1].payload)
  }

  ghost predicate ValidLog<P>(log: seq<Event<P>>) {
    Increasing(log) && forall i :: 0 <= i < |log| ==> log[i].sequence > 0
  }

  // ----- one step of the world -----

  ghost predicate Enabled<P, S>(w: World<P, S>, a: Action<P>) {
    match a
    case Append(e) => e.sequence > LastSequence(w.log)
    case Deliver(k) => k < |w.log|
    case StartSnapshot(_) => true
    case ServeSnapshot(k) =>
      w.client.inFlight.Some? && w.client.inFlight.value.Snapshot? && w.snapshotReply.None? && k <= |w.log|
    case FinishSnapshot => w.snapshotReply.Some?
    case LoseSnapshot => w.client.inFlight.Some? && w.client.inFlight.value.Snapshot?
    case StartReplay(_) => true
    case ServeReplay(batch) =>
      && w.client.inFlight.Some? && w.client.inFlight.value.Replay? && w.replayReply.None?
      && w.client.replayStartSequence.Some?
      && multiset(batch) == multiset(w.log[|UpTo(w.log, w.client.replayStartSequence.value)|..])
    case FinishReplay => w.replayReply.Some?
    case LoseReplay => w.client.inFlight.Some? && w.client.inFlight.value.Replay?
  }

  /** Handing a batch to the coordinator and applying what it returns. */
  function ApplyBatch<P, S>(p: Projection<P, S>, w: World<P, S>, batch: seq<Event<P>>): World<P, S> {
    var next := NextEvents(w.client, batch);
    w.(client := MarkApplied(w.client, batch),
       view := Fold(p, w.view, next),
       applied := w.applied + next)
  }

  function InstallSnapshot<P, S>(w: World<P, S>, r: SnapshotReply<S>): World<P, S> {
    if r.sequence < w.client.latestSequence then w
    else w.(view := r.state, base := r.sequence, applied := [])
  }

  /** The coordinator has judged the delivered event; nothing is applied yet. */
  function Seen<P, S>(w: World<P, S>, k: nat): World<P, S>
    requires k < |w.log|
  {
    var sequence := w.log[k].sequence;
    w.(client := Classify(w.client, sequence).0, delivered := w.delivered + {sequence})
  }

  function Next<P, S>(p: Projection<P, S>, w: World<P, S>, a: Action<P>): World<P, S>
    requires Enabled(w, a)
  {
    match a
    case Append(e) => w.(log := w.log + [e])
    case Deliver(k) =>
      var seen := Seen(w, k);
      (match Classify(w.client, w.log[k].sequence).1
       case Apply => ApplyBatch(p, seen, [w.log[k]])
       case Recover => seen.(replayOwed := true)
       case Ignore => seen
       case Defer => seen)
    case StartSnapshot(reason) => w.(client := BeginSnapshot(w.client, reason).0)
    case ServeSnapshot(k) =>
      w.(snapshotReply := Some(SnapshotReply(LastSequence(w.log[..k]), Fold(p, p.initial, w.log[..k]))))
    case FinishSnapshot =>
      var reply := w.snapshotReply.value;
      var (client, shouldReplay) := CompleteSnapshot(w.client, reply.sequence);
      InstallSnapshot(w, reply).(client := client, snapshotReply := None, replayOwed := shouldReplay)
    case LoseSnapshot => w.(client := FailSnapshot(w.client), snapshotReply := None)
    case StartReplay(reason) => w.(client := BeginReplay(w.client, reason).0, replayOwed := false)
    case ServeReplay(batch) => w.(replayReply := Some(ReplayReply(batch, |w.log|)))
    case FinishReplay =>
      var applied := ApplyBatch(p, w, w.replayReply.value.batch);
      var (client, completion) := CompleteReplay(applied.client);
      applied.(client := client, replayReply := None, replayOwed := completion.shouldReplay)
    case LoseReplay => w.(client := FailReplay(w.client), replayReply := None)
  }

  function Init<P, S>(p: Projection<P, S>): World<P, S> {
    World([], INITIAL, p.initial, 0, [], {}, None, None, false)
  }

  ghost predicate Legal<P, S>(p: Projection<P, S>, w: World<P, S>, run: seq<Action<P>>)
    decreases |run|
  {
    run == [] || (Enabled(w, run[0]) && Legal(p, Next(p, w, run[0]), run[1..]))
  }

  ghost function Run<P, S>(p: Projection<P, S>, w: World<P, S>, run: seq<Action<P>>): World<P, S>
    requires Legal(p, w, run)
    decreases |run|
  {
    if run == [] then w else Run(p, Next(p, w, run[0]), run[1..])
  }

  // ----- the invariant -----

  /** The view is the fold of the log up to the cursor, built from the last snapshot by
      applying each later event once and in order. */
  ghost predicate ViewMatchesLog<P, S>(p: Projection<P, S>, w: World<P, S>) {
    var covered := UpTo(w.log, w.client.latestSequence);
    var snapshot := UpTo(w.log, w.base);
    && w.base <= w.client.latestSequence
    && w.view == Fold(p, p.initial, covered)
    && |snapshot| <= |covered|
    && w.applied == w.log[|snapshot|..|covered|]
  }

  ghost predicate SequencesBounded<P, S>(w: World<P, S>) {
    && ValidLog(w.log)
    && w.client.latestSequence <= w.client.highestObservedSequence <= LastSequence(w.log)
    && forall d :: d in w.delivered ==> d <= w.client.highestObservedSequence
  }

  ghost predicate RepliesMatchLog<P, S>(p: Projection<P, S>, w: World<P, S>) {
    && (w.snapshotReply.Some? ==>
          && w.client.inFlight.Some? && w.client.inFlight.value.Snapshot?
          && w.snapshotReply.value.sequence <= LastSequence(w.log)
          && w.snapshotReply.value.state == Fold(p, p.initial, UpTo(w.log, w.snapshotReply.value.sequence)))
    && (w.client.replayStartSequence.Some? <==> w.client.inFlight.Some? && w.client.inFlight.value.Replay?)
    && (w.client.replayStartSequence.Some? ==>
          w.client.replayStartSequence.value == w.client.latestSequence && w.client.bootstrapped)
    && (w.replayReply.Some? ==>
          var from := |UpTo(w.log, w.client.latestSequence)|;
          && w.client.replayStartSequence.Some?
          && from <= w.replayReply.value.logLength <= |w.log|
          && multiset(w.replayReply.value.batch) == multiset(w.log[from..w.replayReply.value.logLength]))
  }

  /** When something seen is not applied yet, a replay is on its way, remembered or owed,
      or the client is waiting for its first snapshot. */
  ghost predicate NoSilentGap<P, S>(w: World<P, S>) {
    w.client.highestObservedSequence > w.client.latestSequence ==>
      || !w.client.bootstrapped
      || w.client.replayStartSequence.Some?
      || w.client.pendingReplay
      || w.replayOwed
  }

  ghost predicate Inv<P, S>(p: Projection<P, S>, w: World<P, S>) {
    SequencesBounded(w) && ViewMatchesLog(p, w) && RepliesMatchLog(p, w) && NoSilentGap(w)
  }

  // ----- facts about logs -----

  lemma {:induction false} UpToSplits<P>(log: seq<Event<P>>, n: nat)
    requires Increasing(log)
    ensures forall i :: 0 <= i < |log| ==> (log[i].sequence <= n <==> i < |UpTo(log, n)|)
  {
    if log != [] && log[|log| - 1].sequence > n {
      UpToSplits(log[..|log| - 1], n);
    }
  }

  /** The split point of an increasing log is determined by its two sides. */
  lemma UpToIs<P>(log: seq<Event<P>>, n: nat, k: nat)
    requires Increasing(log) && k <= |log|
    requires k > 0 ==> log[k - 1].sequence <= n
    requires k < |log| ==> log[k].sequence > n
    ensures UpTo(log, n) == log[..k]
  {
    UpToSplits(log, n);
  }

  lemma UpToAppend<P>(log: seq<Event<P>>, e: Event<P>, n: nat)
    requires ValidLog(log) && e.sequence > LastSequence(log) && n <= LastSequence(log)
    ensures UpTo(log + [e], n) == UpTo(log, n)
  {
    assert (log + [e])[..|log|] == log;
  }

  lemma {:induction false} FoldSplits<P, S>(p: Projection<P, S>, from: S, a: seq<Event<P>>, b: seq<Event<P>>)
    ensures Fold(p, from, a + b) == Fold(p, Fold(p, from, a), b)
  {
    if b == [] {
      assert a + b == a;
    } else {
      var front := b[..|b| - 1];
      assert (a + b)[..|a + b| - 1] == a + front;
      FoldSplits(p, from, a, front);
    }
  }

  // ----- every step keeps the invariant -----

  /** A permutation of the stretch of the log above the cursor is put back in order. */
  lemma NextEventsAreStretch<P>(log: seq<Event<P>>, client: State, batch: seq<Event<P>>, end: nat)
    requires Increasing(log)
    requires |UpTo(log, client.latestSequence)| <= end <= |log|
    requires multiset(batch) == multiset(log[|UpTo(log, client.latestSequence)|..end])
    ensures NextEvents(client, batch) == log[|UpTo(log, client.latestSequence)|..end]
  {
    var latest := client.latestSequence;
    var stretch := log[|UpTo(log, latest)|..end];
    UpToSplits(log, latest);
    forall e | e in batch ensures e.sequence > latest {
      assert e in multiset(batch);
      assert e in stretch;
    }
    NewerIsAll(batch, latest);
    SortBySequenceSorts(batch);
    SortedPermutationIsUnique(NextEvents(client, batch), stretch);
  }

  /** The cursor moves to the end of the stretch. */
  lemma CursorAfterStretch<P>(log: seq<Event<P>>, client: State, batch: seq<Event<P>>, end: nat)
    requires ValidLog(log) && client.latestSequence <= client.highestObservedSequence <= LastSequence(log)
    requires |UpTo(log, client.latestSequence)| <= end <= |log|
    requires NextEvents(client, batch) == log[|UpTo(log, client.latestSequence)|..end]
    ensures var after := MarkApplied(client, batch);
            && UpTo(log, after.latestSequence) == log[..end]
            && client.latestSequence <= after.latestSequence <= after.highestObservedSequence <= LastSequence(log)
            && client.highestObservedSequence <= after.highestObservedSequence
            && after == client.(latestSequence := after.latestSequence,
                                highestObservedSequence := after.highestObservedSequence)
  {
    UpToSplits(log, client.latestSequence);
    var after := MarkApplied(client, batch);
    if |UpTo(log, client.latestSequence)| < end {
      assert after.latestSequence == log[end - 1].sequence;
    }
    UpToIs(log, after.latestSequence, end);
  }

  /** Extending a covered prefix by the next stretch extends its fold and the list of
      applied events by that stretch. */
  lemma StretchExtends<P, S>(p: Projection<P, S>, log: seq<Event<P>>, snapshot: nat, from: nat, end: nat)
    requires snapshot <= from <= end <= |log|
    ensures Fold(p, Fold(p, p.initial, log[..from]), log[from..end]) == Fold(p, p.initial, log[..end])
    ensures log[snapshot..from] + log[from..end] == log[snapshot..end]
  {
    FoldSplits(p, p.initial, log[..from], log[from..end]);
    assert log[..from] + log[from..end] == log[..end];
  }

  /** Applying a batch that is a permutation of the next stretch of the log extends the
      view by exactly that stretch. */
  lemma ApplyStretch<P, S>(p: Projection<P, S>, w: World<P, S>, batch: seq<Event<P>>, end: nat)
    requires SequencesBounded(w) && ViewMatchesLog(p, w)
    requires |UpTo(w.log, w.client.latestSequence)| <= end <= |w.log|
    requires multiset(batch) == multiset(w.log[|UpTo(w.log, w.client.latestSequence)|..end])
    ensures var v := ApplyBatch(p, w, batch);
            && SequencesBounded(v) && ViewMatchesLog(p, v)
            && UpTo(v.log, v.client.latestSequence) == v.log[..end]
            && v.client == w.client.(latestSequence := v.client.latestSequence,
                                     highestObservedSequence := v.client.highestObservedSequence)
  {
    var log, from, snapshot := w.log, |UpTo(w.log, w.client.latestSequence)|, |UpTo(w.log, w.base)|;
    NextEventsAreStretch(log, w.client, batch, end);
    CursorAfterStretch(log, w.client, batch, end);
    StretchExtends(p, log, snapshot, from, end);
    assert UpTo(log, w.client.latestSequence) == log[..from];
    var v := ApplyBatch(p, w, batch);
    assert v.log == log && v.base == w.base && v.delivered == w.delivered;
    assert v.view == Fold(p, p.initial, log[..end]);
    assert v.applied == log[snapshot..end];
  }

  lemma AppendKeepsSlice<T>(s: seq<T>, x: T, a: nat, b: nat)
    requires a <= b <= |s|
    ensures (s + [x])[a..b] == s[a..b]
  {
  }

  lemma AppendKeepsValid<P>(log: seq<Event<P>>, e: Event<P>)
    requires ValidLog(log) && e.sequence > LastSequence(log)
    ensures ValidLog(log + [e]) && LastSequence(log + [e]) == e.sequence
  {
  }

  lemma AppendKeepsView<P, S>(p: Projection<P, S>, w: World<P, S>, e: Event<P>)
    requires SequencesBounded(w) && ViewMatchesLog(p, w) && e.sequence > LastSequence(w.log)
    ensures ViewMatchesLog(p, w.(log := w.log + [e]))
  {
    UpToAppend(w.log, e, w.client.latestSequence);
    UpToAppend(w.log, e, w.base);
    AppendKeepsSlice(w.log, e, |UpTo(w.log, w.base)|, |UpTo(w.log, w.client.latestSequence)|);
  }

  lemma AppendKeepsReplies<P, S>(p: Projection<P, S>, w: World<P, S>, e: Event<P>)
    requires SequencesBounded(w) && RepliesMatchLog(p, w) && e.sequence > LastSequence(w.log)
    ensures RepliesMatchLog(p, w.(log := w.log + [e]))
  {
    UpToAppend(w.log, e, w.client.latestSequence);
    if w.snapshotReply.Some? {
      UpToAppend(w.log, e, w.snapshotReply.value.sequence);
    }
    if w.replayReply.Some? {
      AppendKeepsSlice(w.log, e, |UpTo(w.log, w.client.latestSequence)|, w.replayReply.value.logLength);
    }
  }

  lemma AppendKeepsInv<P, S>(p: Projection<P, S>, w: World<P, S>, e: Event<P>)
    requires Inv(p, w) && Enabled(w, Append(e))
    ensures Inv(p, Next(p, w, Append(e)))
  {
    AppendKeepsValid(w.log, e);
    AppendKeepsView(p, w, e);
    AppendKeepsReplies(p, w, e);
  }

  /** An event one above the cursor is the first event of the log above the cursor. */
  lemma NextEventPosition<P>(log: seq<Event<P>>, n: nat, k: nat)
    requires Increasing(log) && k < |log| && log[k].sequence == n + 1
    ensures |UpTo(log, n)| == k
  {
    UpToSplits(log, n);
  }

  lemma SeenKeeps<P, S>(p: Projection<P, S>, w: World<P, S>, k: nat)
    requires Inv(p, w) && k < |w.log|
    ensures SequencesBounded(Seen(w, k)) && ViewMatchesLog(p, Seen(w, k)) && RepliesMatchLog(p, Seen(w, k))
  {
    assert w.log[k].sequence <= LastSequence(w.log);
  }

  lemma DeliverApplyKeepsInv<P, S>(p: Projection<P, S>, w: World<P, S>, k: nat)
    requires Inv(p, w) && k < |w.log|
    requires Classify(w.client, w.log[k].sequence).1 == Apply
    ensures Inv(p, ApplyBatch(p, Seen(w, k), [w.log[k]]))
  {
    var seen := Seen(w, k);
    SeenKeeps(p, w, k);
    NextEventPosition(seen.log, seen.client.latestSequence, k);
    assert seen.log[k..k + 1] == [w.log[k]];
    ApplyStretch(p, seen, [w.log[k]], k + 1);
  }

  lemma DeliverOtherKeepsInv<P, S>(p: Projection<P, S>, w: World<P, S>, k: nat, owed: bool)
    requires Inv(p, w) && k < |w.log|
    requires Classify(w.client, w.log[k].sequence).1 != Apply
    requires w.replayOwed ==> owed
    ensures Inv(p, Seen(w, k).(replayOwed := owed))
  {
    SeenKeeps(p, w, k);
  }

  lemma DeliverKeepsInv<P, S>(p: Projection<P, S>, w: World<P, S>, k: nat)
    requires Inv(p, w) && Enabled(w, Deliver(k))
    ensures Inv(p, Next(p, w, Deliver(k)))
  {
    if Classify(w.client, w.log[k].sequence).1 == Apply {
      DeliverApplyKeepsInv(p, w, k);
    } else {
      var owed := w.replayOwed || Classify(w.client, w.log[k].sequence).1 == Recover;
      DeliverOtherKeepsInv(p, w, k, owed);
      assert Next(p, w, Deliver(k)) == Seen(w, k).(replayOwed := owed);
    }
  }

  lemma FinishSnapshotKeepsInv<P, S>(p: Projection<P, S>, w: World<P, S>)
    requires Inv(p, w) && Enabled(w, FinishSnapshot)
    ensures Inv(p, Next(p, w, FinishSnapshot))
  {
  }

  lemma ServeSnapshotKeepsInv<P, S>(p: Projection<P, S>, w: World<P, S>, k: nat)
    requires Inv(p, w) && Enabled(w, ServeSnapshot(k))
    ensures Inv(p, Next(p, w, ServeSnapshot(k)))
  {
    UpToIs(w.log, LastSequence(w.log[..k]), k);
  }

  lemma FinishReplayKeepsInv<P, S>(p: Projection<P, S>, w: World<P, S>)
    requires Inv(p, w) && Enabled(w, FinishReplay)
    ensures Inv(p, Next(p, w, FinishReplay))
  {
    ApplyStretch(p, w, w.replayReply.value.batch, w.replayReply.value.logLength);
  }

  lemma StepKeepsInv<P, S>(p: Projection<P, S>, w: World<P, S>, a: Action<P>)
    requires Inv(p, w) && Enabled(w, a)
    ensures Inv(p, Next(p, w, a))
  {
    match a
    case Append(e) => AppendKeepsInv(p, w, e);
    case Deliver(k) => DeliverKeepsInv(p, w, k);
    case ServeSnapshot(k) => ServeSnapshotKeepsInv(p, w, k);
    case FinishSnapshot => FinishSnapshotKeepsInv(p, w);
    case FinishReplay => FinishReplayKeepsInv(p, w);
    case ServeReplay(batch) => assert w.log[|UpTo(w.log, w.client.latestSequence)|..]
                                      == w.log[|UpTo(w.log, w.client.latestSequence)|..|w.log|];
    case _ =>
  }

  /**
   * In every run the view is the fold of the log prefix the cursor covers, every event
   * after the last installed snapshot was applied exactly once and in order, and no gap
   * between what was seen and what was applied goes unnoticed.
   */
  lemma {:induction false} EveryRunIsConsistent<P, S>(p: Projection<P, S>, w: World<P, S>, run: seq<Action<P>>)
    requires Inv(p, w) && Legal(p, w, run)
    ensures Inv(p, Run(p, w, run))
    decreases |run|
  {
    if run != [] {
      StepKeepsInv(p, w, run[0]);
      EveryRunIsConsistent(p, Next(p, w, run[0]), run[1..]);
    }
  }

  lemma RunsFromStartAreConsistent<P, S>(p: Projection<P, S>, run: seq<Action<P>>)
    requires Legal(p, Init(p), run)
    ensures Inv(p, Run(p, Init(p), run))
  {
    EveryRunIsConsistent(p, Init(p), run);
  }

  // ----- what a delivered event leads to -----

  ghost predicate Free<P, S>(w: World<P, S>) {
    w.client.bootstrapped && w.client.inFlight.None?
  }

  lemma NextEventAlone<P>(log: seq<Event<P>>, client: State, k: nat)
    requires Increasing(log) && k < |log| && log[k].sequence == client.latestSequence + 1
    ensures NextEvents(client, [log[k]]) == [log[k]]
  {
    NextEventPosition(log, client.latestSequence, k);
    assert log[k..k + 1] == [log[k]];
    NextEventsAreStretch(log, client, [log[k]], k + 1);
  }

  /** The next event of the log is applied to the view at once, and only it. */
  lemma NextEventIsApplied<P, S>(p: Projection<P, S>, w: World<P, S>, k: nat)
    requires SequencesBounded(w) && Enabled(w, Deliver(k)) && Free(w)
    requires w.log[k].sequence == w.client.latestSequence + 1
    ensures var next := Next(p, w, Deliver(k));
      && next.view == p.apply(w.view, w.log[k].payload) && next.applied == w.applied + [w.log[k]]
      && next.client.latestSequence == w.log[k].sequence && next.replayOwed == w.replayOwed
  {
    NextEventAlone(w.log, Seen(w, k).client, k);
    ApplyOne(p, Seen(w, k), w.log[k]);
  }

  lemma ApplyOne<P, S>(p: Projection<P, S>, w: World<P, S>, e: Event<P>)
    requires NextEvents(w.client, [e]) == [e]
    ensures var next := ApplyBatch(p, w, [e]);
      && next.view == p.apply(w.view, e.payload) && next.applied == w.applied + [e]
      && next.client.latestSequence == e.sequence && next.replayOwed == w.replayOwed
  {
    assert [e][..0] == [];
    assert Fold(p, w.view, [e]) == p.apply(Fold(p, w.view, []), e.payload);
  }

  /** What a delivered event leads to: to a client that is free, it is covered, applied or makes
      a replay owed; one that is not free stays as it is and remembers that it saw more. */
  lemma DeliveryIsAnswered<P, S>(p: Projection<P, S>, w: World<P, S>, k: nat)
    requires Inv(p, w) && Enabled(w, Deliver(k))
    ensures var next := Next(p, w, Deliver(k)); var e := w.log[k];
      && (Free(w) ==> e.sequence <= next.client.latestSequence || next.replayOwed)
      && (Free(w) && e.sequence > w.client.latestSequence + 1 ==> next.replayOwed)
      && (!Free(w) || e.sequence != w.client.latestSequence + 1 ==>
            && next.view == w.view && next.applied == w.applied && next.client.latestSequence == w.client.latestSequence)
      && (!Free(w) ==> next.replayOwed == w.replayOwed)
      && (!Free(w) && e.sequence > w.client.latestSequence ==> next.client.pendingReplay)
      && (e.sequence <= w.client.latestSequence + 1 ==> next.replayOwed == w.replayOwed)
      && next.client.inFlight == w.client.inFlight && next.client.bootstrapped == w.client.bootstrapped
  {
    if Free(w) && w.log[k].sequence == w.client.latestSequence + 1 {
      NextEventIsApplied(p, w, k);
    }
  }

  /** A client that is free, has nothing owed and remembers no replay has applied everything it
      was ever delivered; and once a replay is owed, only starting one or completing a recovery
      ends that. */
  lemma FreeAndQuietIsCurrent<P, S>(p: Projection<P, S>, run: seq<Action<P>>)
    requires Legal(p, Init(p), run)
    ensures var w := Run(p, Init(p), run);
      Free(w) && !w.replayOwed && !w.client.pendingReplay ==> forall d :: d in w.delivered ==> d <= w.client.latestSequence
  {
    RunsFromStartAreConsistent(p, run);
  }

  lemma OwedUntilAnswered<P, S>(p: Projection<P, S>, w: World<P, S>, a: Action<P>)
    requires Inv(p, w) && Enabled(w, a) && w.replayOwed
    ensures Next(p, w, a).replayOwed || a.StartReplay? || a.FinishSnapshot? || a.FinishReplay?
  {
  }

  /** Starting a replay puts one in flight from the cursor if the client is free, and is
      remembered if not; starting a snapshot is refused only while something is in flight. */
  lemma StartsAreAnswered<P, S>(p: Projection<P, S>, w: World<P, S>, reason: Reason)
    requires Inv(p, w)
    ensures var v := Next(p, w, StartReplay(reason));
      && !v.replayOwed && v.view == w.view && v.client.latestSequence == w.client.latestSequence
      && (if Free(w) then v.client.inFlight == Some(Replay(reason)) && v.client.replayStartSequence == Some(w.client.latestSequence)
          else v.client.pendingReplay && v.client.inFlight == w.client.inFlight)
    ensures var v := Next(p, w, StartSnapshot(reason));
      && v.replayOwed == w.replayOwed && v.view == w.view && v.client.latestSequence == w.client.latestSequence
      && (if w.client.inFlight.None? then v.client.inFlight == Some(Snapshot(reason))
          else v.client.pendingReplay && v.client.inFlight == w.client.inFlight)
  {
  }

  /** What is lost is no longer in flight; losing a replay makes the client load a snapshot again. */
  lemma LossEndsRequest<P, S>(p: Projection<P, S>, w: World<P, S>, a: Action<P>)
    requires Inv(p, w) && Enabled(w, a) && (a.LoseSnapshot? || a.LoseReplay?)
    ensures var v := Next(p, w, a);
      && v.client.inFlight.None? && v.snapshotReply.None? && v.replayReply.None?
      && v.client.bootstrapped == (a.LoseSnapshot? && w.client.bootstrapped)
      && v.view == w.view && v.client.latestSequence == w.client.latestSequence
      && v.client.pendingReplay == w.client.pendingReplay && v.replayOwed == w.replayOwed
  {
  }

  /** A recovery that completes without asking for a replay has covered every event ever
      delivered, in any run. */
  lemma QuietCompletionCoversDeliveries<P, S>(p: Projection<P, S>, run: seq<Action<P>>, a: Action<P>)
    requires Legal(p, Init(p), run) && Enabled(Run(p, Init(p), run), a)
    requires a.FinishSnapshot? || a.FinishReplay?
    ensures var w := Next(p, Run(p, Init(p), run), a);
            !w.replayOwed ==> forall d :: d in w.delivered ==> d <= w.client.latestSequence
  {
    var before := Run(p, Init(p), run);
    RunsFromStartAreConsistent(p, run);
    StepKeepsInv(p, before, a);
  }

  lemma FinishAtEnd<P, S>(p: Projection<P, S>, w: World<P, S>)
    requires Inv(p, w) && w.replayReply.Some? && w.replayReply.value.logLength == |w.log|
    ensures var v := Next(p, w, FinishReplay);
            && v.log == w.log && v.view == Fold(p, p.initial, w.log)
            && v.client.latestSequence == LastSequence(w.log) == v.client.highestObservedSequence
            && (v.replayOwed <==> w.client.pendingReplay)
  {
    ApplyStretch(p, w, w.replayReply.value.batch, |w.log|);
    StepKeepsInv(p, w, FinishReplay);
    assert w.log[..|w.log|] == w.log;
    UpToSplits(w.log, Next(p, w, FinishReplay).client.latestSequence);
  }

  /** A replay served from the whole log brings the view up to date, whatever the
      channel did before. */
  lemma ReplayCatchesUp<P, S>(p: Projection<P, S>, run: seq<Action<P>>)
    requires Legal(p, Init(p), run)
    requires var w := Run(p, Init(p), run); w.replayReply.Some? && w.replayReply.value.logLength == |w.log|
    ensures var w := Run(p, Init(p), run);
            var v := Next(p, w, FinishReplay);
            && v.view == Fold(p, p.initial, w.log)
            && v.client.latestSequence == LastSequence(w.log)
            && (v.replayOwed <==> w.client.pendingReplay)
  {
    RunsFromStartAreConsistent(p, run);
    FinishAtEnd(p, Run(p, Init(p), run));
  }

  // ----- the coordinator object in this world -----

  /** Handing a batch to the object and applying what it returns. */
  method HandOver<P, S>(p: Projection<P, S>, c: Coordinator, w: World<P, S>, batch: seq<Event<P>>)
    returns (next: World<P, S>)
    requires c.Valid() && c.GetState() == w.client
    modifies c
    ensures next == ApplyBatch(p, w, batch) && c.Valid() && c.GetState() == next.client
  {
    var events := c.MarkEventBatchApplied(batch);
    next := w.(client := c.GetState(), view := Fold(p, w.view, events), applied := w.applied + events);
  }

  method Receive<P, S>(p: Projection<P, S>, c: Coordinator, w: World<P, S>, k: nat) returns (next: World<P, S>)
    requires k < |w.log| && c.Valid() && c.GetState() == w.client
    modifies c
    ensures next == Next(p, w, Deliver(k)) && c.Valid() && c.GetState() == next.client
  {
    var verdict := c.ClassifyDomainEvent(w.log[k].sequence);
    next := w.(client := c.GetState(), delivered := w.delivered + {w.log[k].sequence});
    match verdict
    case Apply => next := HandOver(p, c, next, [w.log[k]]);
    case Recover => next := next.(replayOwed := true);
    case Ignore =>
    case Defer =>
  }

  /** One step, the client's part of it taken by the object. */
  method Perform<P, S>(p: Projection<P, S>, c: Coordinator, w: World<P, S>, a: Action<P>) returns (next: World<P, S>)
    requires Inv(p, w) && Enabled(w, a) && c.Valid() && c.GetState() == w.client
    modifies c
    ensures next == Next(p, w, a) && Inv(p, next) && c.Valid() && c.GetState() == next.client
  {
    StepKeepsInv(p, w, a);
    match a
    case Append(e) => next := w.(log := w.log + [e]);
    case Deliver(k) => next := Receive(p, c, w, k);
    case StartSnapshot(reason) =>
      var _ := c.BeginSnapshotRecovery(reason);
      next := w.(client := c.GetState());
    case ServeSnapshot(_) => next := Next(p, w, a);
    case FinishSnapshot =>
      var reply := w.snapshotReply.value;
      next := InstallSnapshot(w, reply);
      var shouldReplay := c.CompleteSnapshotRecovery(reply.sequence);
      next := next.(client := c.GetState(), snapshotReply := None, replayOwed := shouldReplay);
    case LoseSnapshot =>
      c.FailSnapshotRecovery();
      next := w.(client := c.GetState(), snapshotReply := None);
    case StartReplay(reason) =>
      var _ := c.BeginReplayRecovery(reason);
      next := w.(client := c.GetState(), replayOwed := false);
    case ServeReplay(_) => next := Next(p, w, a);
    case FinishReplay =>
      next := HandOver(p, c, w, w.replayReply.value.batch);
      var completion := c.CompleteReplayRecovery();
      next := next.(client := c.GetState(), replayReply := None, replayOwed := completion.shouldReplay);
    case LoseReplay =>
      c.FailReplayRecovery();
      next := w.(client := c.GetState(), replayReply := None);
  }

  /** A new coordinator driven through any run: the view is what the run says, and the
      invariant holds at its end. */
  method Drive<P, S>(p: Projection<P, S>, run: seq<Action<P>>) returns (c: Coordinator, w: World<P, S>)
    requires Legal(p, Init(p), run)
    ensures w == Run(p, Init(p), run) && Inv(p, w) && c.GetState() == w.client
  {
    c := new Coordinator();
    w := Init(p);
    for i := 0 to |run|
      invariant Inv(p, w) && c.Valid() && c.GetState() == w.client && fresh(c)
      invariant Legal(p, w, run[i..]) && Run(p, w, run[i..]) == Run(p, Init(p), run)
    {
      assert run[i..][0] == run[i] && run[i..][1..] == run[i + 1..];
      w := Perform(p, c, w, run[i]);
    }
  }

  // ----- catching up -----

  /** The view is the whole log, nothing is in flight and no replay is owed. */
  ghost predicate Settled<P, S>(p: Projection<P, S>, w: World<P, S>) {
    && w.view == Fold(p, p.initial, w.log)
    && w.client.latestSequence == LastSequence(w.log) == w.client.highestObservedSequence
    && Free(w) && !w.client.pendingReplay && !w.replayOwed
  }

  /** Nothing is lost and nothing new happens on the server: requests are answered and complete,
      an idle client without a snapshot asks for one, and a free client starts a replay, if
      `eager` whether or not one is owed. */
  ghost predicate Due<P, S>(w: World<P, S>, a: Action<P>, eager: bool) {
    match a
    case ServeSnapshot(_) => true
    case FinishSnapshot => true
    case ServeReplay(_) => true
    case FinishReplay => true
    case StartSnapshot(_) => !w.client.bootstrapped && w.client.inFlight.None?
    case StartReplay(_) => Free(w) && (eager || w.replayOwed)
    case _ => false
  }

  ghost predicate AllDue<P, S>(p: Projection<P, S>, w: World<P, S>, run: seq<Action<P>>, eager: bool)
    requires Legal(p, w, run)
    decreases |run|
  {
    run == [] || (Due(w, run[0], eager) && AllDue(p, Next(p, w, run[0]), run[1..], eager))
  }

  /** A continuation of at most `n` steps that are due. */
  ghost predicate Continues<P, S>(p: Projection<P, S>, w: World<P, S>, run: seq<Action<P>>, n: nat, eager: bool) {
    Legal(p, w, run) && AllDue(p, w, run, eager) && |run| <= n
  }

  lemma {:induction false} OneMore<P, S>(p: Projection<P, S>, w: World<P, S>, run: seq<Action<P>>, n: nat, eager: bool, a: Action<P>)
    requires Inv(p, w) && Continues(p, w, run, n, eager)
    requires Enabled(Run(p, w, run), a) && Due(Run(p, w, run), a, eager)
    ensures Continues(p, w, run + [a], n + 1, eager)
    ensures Run(p, w, run + [a]) == Next(p, Run(p, w, run), a) && Inv(p, Run(p, w, run + [a]))
    decreases |run|
  {
    if run == [] {
      StepKeepsInv(p, w, a);
      assert run + [a] == [a] && [a][1..] == [];
      assert Run(p, Next(p, w, a), []) == Next(p, w, a);
    } else {
      StepKeepsInv(p, w, run[0]);
      OneMore(p, Next(p, w, run[0]), run[1..], if n > 0 then n - 1 else 0, eager, a);
      assert (run + [a])[0] == run[0] && (run + [a])[1..] == run[1..] + [a];
    }
  }

  /** Everything the client saw is applied, or it owes a replay. */
  ghost predicate NothingForgotten<P, S>(w: World<P, S>) {
    Free(w) && !w.client.pendingReplay && (w.replayOwed || w.client.latestSequence == w.client.highestObservedSequence)
  }

  /** The log and what was seen of it; a continuation changes neither but by seeing more. */
  ghost predicate SameLog<P, S>(w: World<P, S>, v: World<P, S>) {
    v.log == w.log && v.client.highestObservedSequence >= w.client.highestObservedSequence
  }

  lemma CompletionForgetsNothing<P, S>(p: Projection<P, S>, w: World<P, S>, finish: Action<P>)
    requires Inv(p, w) && Enabled(w, finish) && (finish.FinishSnapshot? || finish.FinishReplay?)
    ensures NothingForgotten(Next(p, w, finish)) && SameLog(w, Next(p, w, finish))
  {
    StepKeepsInv(p, w, finish);
    if finish.FinishReplay? {
      ApplyStretch(p, w, w.replayReply.value.batch, w.replayReply.value.logLength);
    }
  }

  ghost predicate SnapshotInFlight<P, S>(w: World<P, S>) {
    w.client.inFlight.Some? && w.client.inFlight.value.Snapshot?
  }

  lemma FinishSnapshotInFlight<P, S>(p: Projection<P, S>, w: World<P, S>, before: seq<Action<P>>, n: nat, eager: bool)
    returns (run: seq<Action<P>>)
    requires Inv(p, w) && Continues(p, w, before, n, eager) && SnapshotInFlight(Run(p, w, before))
    ensures Continues(p, w, run, n + 2, eager)
    ensures SameLog(Run(p, w, before), Run(p, w, run)) && NothingForgotten(Run(p, w, run))
  {
    run := before;
    EveryRunIsConsistent(p, w, before);
    if Run(p, w, run).snapshotReply.None? {
      OneMore(p, w, run, n, eager, ServeSnapshot(|Run(p, w, run).log|));
      run := run + [ServeSnapshot(|Run(p, w, run).log|)];
    }
    CompletionForgetsNothing(p, Run(p, w, run), FinishSnapshot);
    OneMore(p, w, run, n + 1, eager, FinishSnapshot);
    run := run + [FinishSnapshot];
  }

  lemma FinishReplayInFlight<P, S>(p: Projection<P, S>, w: World<P, S>, before: seq<Action<P>>, n: nat, eager: bool)
    returns (run: seq<Action<P>>)
    requires Inv(p, w) && Continues(p, w, before, n, eager)
    requires Run(p, w, before).client.inFlight.Some? && !SnapshotInFlight(Run(p, w, before))
    ensures Continues(p, w, run, n + 2, eager)
    ensures SameLog(Run(p, w, before), Run(p, w, run)) && NothingForgotten(Run(p, w, run))
  {
    run := before;
    EveryRunIsConsistent(p, w, before);
    var v := Run(p, w, run);
    if v.replayReply.None? {
      var serve := ServeReplay(v.log[|UpTo(v.log, v.client.replayStartSequence.value)|..]);
      OneMore(p, w, run, n, eager, serve);
      run := run + [serve];
    }
    CompletionForgetsNothing(p, Run(p, w, run), FinishReplay);
    OneMore(p, w, run, n + 1, eager, FinishReplay);
    run := run + [FinishReplay];
  }

  /** Whatever the client is doing, it comes to be free, with nothing forgotten unless it was
      free before. */
  lemma BecomeFree<P, S>(p: Projection<P, S>, w: World<P, S>, eager: bool) returns (run: seq<Action<P>>)
    requires Inv(p, w)
    ensures Continues(p, w, run, 3, eager) && Inv(p, Run(p, w, run))
    ensures SameLog(w, Run(p, w, run)) && Free(Run(p, w, run))
    ensures if Free(w) then run == [] else NothingForgotten(Run(p, w, run))
  {
    run := [];
    if SnapshotInFlight(w) {
      run := FinishSnapshotInFlight(p, w, run, 0, eager);
    } else if w.client.inFlight.Some? {
      run := FinishReplayInFlight(p, w, run, 0, eager);
    } else if !w.client.bootstrapped {
      OneMore(p, w, run, 0, eager, StartSnapshot(Bootstrap));
      run := FinishSnapshotInFlight(p, w, run + [StartSnapshot(Bootstrap)], 1, eager);
    }
    EveryRunIsConsistent(p, w, run);
  }

  /** A free client replays the rest. */
  lemma ReplayRest<P, S>(p: Projection<P, S>, w: World<P, S>, before: seq<Action<P>>, n: nat, eager: bool)
    returns (run: seq<Action<P>>)
    requires Inv(p, w) && Continues(p, w, before, n, eager)
    requires Free(Run(p, w, before)) && (eager || Run(p, w, before).replayOwed)
    ensures Continues(p, w, run, n + 3, eager)
    ensures Settled(p, Run(p, w, run)) && Run(p, w, run).log == Run(p, w, before).log
  {
    run := before;
    EveryRunIsConsistent(p, w, before);
    var v := Run(p, w, before);
    var rest := v.log[|UpTo(v.log, v.client.latestSequence)|..];
    OneMore(p, w, run, n, eager, StartReplay(SequenceGap));
    run := run + [StartReplay(SequenceGap)];
    OneMore(p, w, run, n + 1, eager, ServeReplay(rest));
    run := run + [ServeReplay(rest)];
    FinishAtEnd(p, Run(p, w, run));
    OneMore(p, w, run, n + 2, eager, FinishReplay);
    run := run + [FinishReplay];
  }

  /** However a run went, a bounded continuation in which nothing more is lost brings the view
      up to date with the whole log, with no replay owed. */
  lemma CatchesUp<P, S>(p: Projection<P, S>, before: seq<Action<P>>) returns (run: seq<Action<P>>)
    requires Legal(p, Init(p), before)
    ensures Continues(p, Run(p, Init(p), before), run, 6, true)
    ensures var w := Run(p, Init(p), before); var v := Run(p, w, run);
      Settled(p, v) && v.log == w.log
  {
    RunsFromStartAreConsistent(p, before);
    var w := Run(p, Init(p), before);
    run := BecomeFree(p, w, true);
    run := ReplayRest(p, w, run, 3, true);
  }

  // ----- doing only what is owed -----

  /** The client remembers a replay, but it is free and owes none: nothing will start it. */
  ghost predicate Stranded<P, S>(w: World<P, S>) {
    Free(w) && w.client.pendingReplay && !w.replayOwed
  }

  lemma QuietIsSettled<P, S>(p: Projection<P, S>, w: World<P, S>)
    requires Inv(p, w) && NothingForgotten(w) && !w.replayOwed && w.client.highestObservedSequence == LastSequence(w.log)
    ensures Settled(p, w)
  {
    UpToSplits(w.log, w.client.latestSequence);
    assert UpTo(w.log, w.client.latestSequence) == w.log;
  }

  /** Once the client has seen the end of the log, doing only what is owed brings the view up to
      date, unless a replay is stranded; then nothing is owed at all. */
  lemma OwedWorkCatchesUp<P, S>(p: Projection<P, S>, before: seq<Action<P>>) returns (run: seq<Action<P>>)
    requires Legal(p, Init(p), before)
    requires Run(p, Init(p), before).client.highestObservedSequence == LastSequence(Run(p, Init(p), before).log)
    ensures var w := Run(p, Init(p), before);
      if Stranded(w) then forall a :: Enabled(w, a) ==> !Due(w, a, false)
      else Continues(p, w, run, 6, false) && Settled(p, Run(p, w, run)) && Run(p, w, run).log == w.log
  {
    RunsFromStartAreConsistent(p, before);
    var w := Run(p, Init(p), before);
    run := [];
    if !Stranded(w) {
      run := BecomeFree(p, w, false);
      var v := Run(p, w, run);
      if v.replayOwed {
        run := ReplayRest(p, w, run, 3, false);
      } else {
        QuietIsSettled(p, v);
      }
    }
  }

  lemma {:induction false} RunPush<P, S>(p: Projection<P, S>, w: World<P, S>, run: seq<Action<P>>, a: Action<P>)
    requires Legal(p, w, run) && Enabled(Run(p, w, run), a)
    ensures Legal(p, w, run + [a]) && Run(p, w, run + [a]) == Next(p, Run(p, w, run), a)
    decreases |run|
  {
    if run == [] {
      assert run + [a] == [a] && [a][1..] == [];
      assert Run(p, Next(p, w, a), []) == Next(p, w, a);
    } else {
      RunPush(p, Next(p, w, run[0]), run[1..], a);
      assert (run + [a])[0] == run[0] && (run + [a])[1..] == run[1..] + [a];
    }
  }

  /** A run that strands a replay: an event put off during a second snapshot, which is then lost. */
  lemma LostSnapshotStrandsReplay<P, S>(p: Projection<P, S>, e: Event<P>) returns (run: seq<Action<P>>)
    requires e.sequence > 0
    ensures Legal(p, Init(p), run)
    ensures var w := Run(p, Init(p), run);
      Stranded(w) && e.sequence in w.delivered && w.client.latestSequence < e.sequence
  {
    run := [];
    RunPush(p, Init(p), run, StartSnapshot(Bootstrap));
    run := run + [StartSnapshot(Bootstrap)];
    RunPush(p, Init(p), run, ServeSnapshot(0));
    run := run + [ServeSnapshot(0)];
    RunPush(p, Init(p), run, FinishSnapshot);
    run := run + [FinishSnapshot];
    RunPush(p, Init(p), run, Append(e));
    run := run + [Append(e)];
    RunPush(p, Init(p), run, StartSnapshot(Resubscribe));
    run := run + [StartSnapshot(Resubscribe)];
    RunPush(p, Init(p), run, Deliver(0));
    run := run + [Deliver(0)];
    RunPush(p, Init(p), run, LoseSnapshot);
    run := run + [LoseSnapshot];
  }
}
