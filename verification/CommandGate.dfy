/**
 * The startup command gate (apps/server/src/serverRuntimeStartup.ts:85-147) as a
 * transition system. A step is one access to the readiness Ref, the one-shot Deferred,
 * the queue or a command's result, so every interleaving of callers, worker, startup
 * and finalizer is a run of this system.
 *
 * The finalizer runs after the startup fiber has ended, by itself or by interruption at
 * any point (the fiber is forked after the finalizer is registered, lines 320-335 and
 * 443-457, and scopes close in reverse order).
 */
module CommandGate {
  import opened Prelude

  type Id = nat

  datatype Readiness<E> = Pending | Ready | Failed(error: E) | ShuttingDown(error: E)

  datatype Signal<E> = Unset | Succeeded | FailedWith(error: E)

  /** How a command ends for its caller: with its own exit, or with the readiness error. */
  datatype Outcome<E, X> = Exited(exit: X) | Rejected(error: E)

  datatype Caller = SawPending | SawReady | RunningDirect | Queued | Returned

  datatype Worker<E, X> = Idle | Awaiting(id: Id) | Running(id: Id) | Settling(id: Id, outcome: Outcome<E, X>)

  datatype Startup<E> =
    | Starting
    | ReadySet
    | FailedSet(error: E)
    | Ended(interruptedMidSignal: bool)

  datatype Shutdown<E> =
    | NotBegun
    | FoundPending(error: E)
    | PendingClosed(error: E)
    | FoundReady(error: E)
    | Finished

  datatype World<E, X> = World(
    readiness: Readiness<E>,
    signal: Signal<E>,
    queue: seq<Id>,
    callers: map<Id, Caller>,
    settled: map<Id, Outcome<E, X>>,
    worker: Worker<E, X>,
    startup: Startup<E>,
    shutdown: Shutdown<E>,
    // What has happened so far.
    offered: seq<Id>,
    taken: seq<Id>,
    started: seq<Id>,
    workerStarted: seq<Id>,
    exits: map<Id, X>,
    wasReady: bool,
    wasFailed: bool,
    closedFromPending: bool)

  datatype Action<E, X> =
    | Call(id: Id)
    | Offer(id: Id)
    | StartDirect(id: Id)
    | FinishDirect(id: Id, exit: X)
    | Take
    | Proceed
    | FinishQueued(exit: X)
    | Settle
    | SetReady
    | SignalReady
    | SetFailed(error: E)
    | SignalFailed
    | InterruptStartup
    | BeginShutdown(error: E)
    | SetShuttingDown
    | FailPending

  ghost predicate Enabled<E, X>(w: World<E, X>, a: Action<E, X>) {
    match a
    case Call(id) => id !in w.callers
    case Offer(id) => id in w.callers && w.callers[id] == SawPending
    case StartDirect(id) => id in w.callers && w.callers[id] == SawReady
    case FinishDirect(id, _) => id in w.callers && w.callers[id] == RunningDirect
    case Take => w.worker.Idle? && w.queue != []
    case Proceed => w.worker.Awaiting? && !w.signal.Unset?
    case FinishQueued(_) => w.worker.Running?
    case Settle => w.worker.Settling?
    case SetReady => w.startup.Starting?
    case SignalReady => w.startup.ReadySet?
    case SetFailed(_) => w.startup.Starting?
    case SignalFailed => w.startup.FailedSet?
    case InterruptStartup => !w.startup.Ended?
    case BeginShutdown(_) => w.startup.Ended? && w.shutdown.NotBegun?
    case SetShuttingDown => w.shutdown.FoundPending? || w.shutdown.FoundReady?
    case FailPending => w.shutdown.PendingClosed?
  }

  /** Completing the Deferred: only the first completion counts. */
  ghost function Complete<E>(signal: Signal<E>, completion: Signal<E>): Signal<E> {
    if signal.Unset? then completion else signal
  }

  ghost function Next<E, X>(w: World<E, X>, a: Action<E, X>): World<E, X>
    requires Enabled(w, a)
  {
    match a
    case Call(id) =>
      (match w.readiness
       case Ready => w.(callers := w.callers[id := SawReady])
       case Pending => w.(callers := w.callers[id := SawPending])
       case Failed(e) => w.(callers := w.callers[id := Returned], settled := w.settled[id := Rejected(e)])
       case ShuttingDown(e) => w.(callers := w.callers[id := Returned], settled := w.settled[id := Rejected(e)]))
    case Offer(id) =>
      w.(callers := w.callers[id := Queued], queue := w.queue + [id], offered := w.offered + [id])
    case StartDirect(id) => w.(callers := w.callers[id := RunningDirect], started := w.started + [id])
    case FinishDirect(id, x) =>
      w.(callers := w.callers[id := Returned], exits := w.exits[id := x], settled := w.settled[id := Exited(x)])
    case Take => w.(worker := Awaiting(w.queue[0]), queue := w.queue[1..], taken := w.taken + [w.queue[0]])
    case Proceed =>
      var id := w.worker.id;
      if w.signal.Succeeded?
      then w.(worker := Running(id), started := w.started + [id], workerStarted := w.workerStarted + [id])
      else w.(worker := Settling(id, Rejected(w.signal.error)))
    case FinishQueued(x) =>
      w.(worker := Settling(w.worker.id, Exited(x)), exits := w.exits[w.worker.id := x])
    case Settle => w.(worker := Idle, settled := w.settled[w.worker.id := w.worker.outcome])
    case SetReady => w.(readiness := Ready, startup := ReadySet, wasReady := true)
    case SignalReady => w.(signal := Complete(w.signal, Succeeded), startup := Ended(false))
    case SetFailed(e) => w.(readiness := Failed(e), startup := FailedSet(e), wasFailed := true)
    case SignalFailed => w.(signal := Complete(w.signal, FailedWith(w.startup.error)), startup := Ended(false))
    case InterruptStartup => w.(startup := Ended(!w.startup.Starting?))
    case BeginShutdown(e) =>
      (match w.readiness
       case Pending => w.(shutdown := FoundPending(e))
       case Ready => w.(shutdown := FoundReady(e))
       case Failed(_) => w.(shutdown := Finished)
       case ShuttingDown(_) => w.(shutdown := Finished))
    case SetShuttingDown =>
      if w.shutdown.FoundPending?
      then w.(readiness := ShuttingDown(w.shutdown.error), shutdown := PendingClosed(w.shutdown.error),
              closedFromPending := true)
      else w.(readiness := ShuttingDown(w.shutdown.error), shutdown := Finished)
    case FailPending =>
      w.(signal := Complete(w.signal, FailedWith(w.shutdown.error)), shutdown := Finished)
  }

  ghost function Init<E, X>(): World<E, X> {
    World(Pending, Unset, [], map[], map[], Idle, Starting, NotBegun,
          [], [], [], [], map[], false, false, false)
  }

  ghost predicate Legal<E, X>(w: World<E, X>, run: seq<Action<E, X>>)
    decreases |run|
  {
    run == [] || (Enabled(w, run[0]) && Legal(Next(w, run[0]), run[1..]))
  }

  ghost function Run<E, X>(w: World<E, X>, run: seq<Action<E, X>>): World<E, X>
    requires Legal(w, run)
    decreases |run|
  {
    if run == [] then w else Run(Next(w, run[0]), run[1..])
  }

  // ----- what every run keeps -----

  ghost predicate Distinct<T>(s: seq<T>) {
    forall i, j :: 0 <= i < j < |s| ==> s[i] != s[j]
  }

  /** Readiness, Deferred, startup and shutdown agree on what has happened. */
  ghost predicate PhasesAgree<E, X>(w: World<E, X>) {
    && (w.startup.Starting? <==> !w.wasReady && !w.wasFailed && !w.startup.Ended?)
    && (w.startup.ReadySet? ==> w.wasReady)
    && (w.startup.FailedSet? ==> w.wasFailed && w.readiness == Failed(w.startup.error))
    && !(w.wasReady && w.wasFailed)
    && (w.readiness.Pending? <==> !w.wasReady && !w.wasFailed && !w.closedFromPending)
    && (w.readiness.Ready? ==> w.wasReady)
    && (w.readiness.Failed? <==> w.wasFailed)
    && (w.signal.Succeeded? ==> w.wasReady)
    && (!w.shutdown.NotBegun? ==> w.startup.Ended?)
    && (w.closedFromPending ==> !w.wasReady && !w.wasFailed && w.startup.Ended?)
    && (w.shutdown.FoundPending? ==> w.readiness.Pending?)
    && (w.shutdown.FoundReady? ==> w.readiness.Ready?)
    && (w.shutdown.PendingClosed? ==> w.closedFromPending)
    && (w.closedFromPending ==> w.shutdown.PendingClosed? || w.shutdown.Finished?)
    && (w.closedFromPending && w.shutdown.Finished? ==> !w.signal.Unset?)
    && (w.readiness.ShuttingDown? ==> !w.shutdown.NotBegun?)
    && (!w.startup.Ended? || w.startup.interruptedMidSignal ==> w.signal.Unset?)
    && (w.startup.Ended? && w.startup.interruptedMidSignal ==> w.wasReady || w.wasFailed)
    && (w.startup.Ended? && !w.startup.interruptedMidSignal && (w.wasReady || w.wasFailed) ==> !w.signal.Unset?)
    && (w.shutdown.Finished? ==> !w.readiness.Pending?)
  }

  /** No effect has started unless commands became ready. */
  ghost predicate NoEffectBeforeReady<E, X>(w: World<E, X>) {
    && (w.started != [] ==> w.wasReady)
    && (forall id :: id in w.callers && (w.callers[id] == SawReady || w.callers[id] == RunningDirect) ==> w.wasReady)
    && (w.worker.Running? ==> w.signal.Succeeded?)
  }

  /** After a failed start, or a shutdown that found commands pending, no effect has run:
      since the flags never go back, none ever will. */
  ghost predicate NoEffectAfterClose<E, X>(w: World<E, X>) {
    w.wasFailed || w.closedFromPending ==> w.started == []
  }

  /** The worker takes commands in the order they were offered and starts those it runs
      in that order. */
  ghost predicate Fifo<E, X>(w: World<E, X>) {
    && w.taken + w.queue == w.offered
    && (w.signal.Unset? ==> if w.worker.Idle? then w.taken == [] else w.worker.Awaiting? && |w.taken| == 1)
    && (w.worker.Idle? || (w.taken != [] && w.taken[|w.taken| - 1] == w.worker.id))
    && w.workerStarted == (if !w.signal.Succeeded? then []
                           else if w.worker.Awaiting? then w.taken[..|w.taken| - 1]
                           else w.taken)
  }

  /** Commands are offered at most once and run at most once. */
  ghost predicate AtMostOnce<E, X>(w: World<E, X>) {
    && Distinct(w.offered)
    && Distinct(w.started)
    && (forall id :: id in w.offered ==> id in w.callers && w.callers[id] == Queued)
    && (forall id :: id in w.callers && w.callers[id] == Queued ==> id in w.offered)
    && (forall id :: id in w.started ==>
          id in w.callers
          && (w.callers[id] == RunningDirect || w.callers[id] == Returned || id in w.workerStarted))
    && (forall id :: id in w.workerStarted ==> id in w.started)
  }

  /** The outcome the worker owes a command: its own exit once commands are ready, the
      readiness error otherwise. */
  ghost predicate Owes<E, X>(w: World<E, X>, id: Id, outcome: Outcome<E, X>) {
    match w.signal
    case Unset => false
    case Succeeded => id in w.exits && outcome == Exited(w.exits[id])
    case FailedWith(e) => outcome == Rejected(e)
  }

  /** The commands the worker is done with: all it took but the one it holds. */
  ghost function Processed<E, X>(w: World<E, X>): seq<Id> {
    if w.worker.Idle? || w.taken == [] then w.taken else w.taken[..|w.taken| - 1]
  }

  /** Exactly the processed commands are settled, each with the outcome owed to it. */
  ghost predicate SettledRight<E, X>(w: World<E, X>) {
    && (w.worker.Settling? ==> Owes(w, w.worker.id, w.worker.outcome))
    && (forall id :: id in Processed(w) ==> id in w.settled && Owes(w, id, w.settled[id]))
    && (forall id :: id in w.settled ==> id in w.callers && (w.callers[id] == Returned || id in Processed(w)))
  }

  ghost predicate Inv<E, X>(w: World<E, X>) {
    && PhasesAgree(w) && NoEffectBeforeReady(w) && NoEffectAfterClose(w)
    && Fifo(w) && AtMostOnce(w) && SettledRight(w)
  }

  // ----- every step keeps it -----

  lemma PhasesStartupStep<E, X>(w: World<E, X>, a: Action<E, X>)
    requires Inv(w) && Enabled(w, a) && !w.startup.Ended?
    ensures PhasesAgree(Next(w, a))
  {
  }

  lemma PhasesShutdownStep<E, X>(w: World<E, X>, a: Action<E, X>)
    requires Inv(w) && Enabled(w, a) && w.startup.Ended?
    ensures PhasesAgree(Next(w, a))
  {
  }

  lemma EffectsStep<E, X>(w: World<E, X>, a: Action<E, X>)
    requires Inv(w) && Enabled(w, a)
    ensures NoEffectBeforeReady(Next(w, a)) && NoEffectAfterClose(Next(w, a))
  {
  }

  ghost predicate IsSignalStep<E, X>(a: Action<E, X>) {
    a.SignalReady? || a.SignalFailed? || a.FailPending?
  }

  ghost predicate IsWorkerStep<E, X>(a: Action<E, X>) {
    a.Take? || a.Proceed? || a.FinishQueued? || a.Settle?
  }

  lemma FifoCallerStep<E, X>(w: World<E, X>, a: Action<E, X>)
    requires Inv(w) && Enabled(w, a) && !IsWorkerStep(a) && !IsSignalStep(a)
    ensures Fifo(Next(w, a))
  {
  }

  lemma FifoSignalStep<E, X>(w: World<E, X>, a: Action<E, X>)
    requires Inv(w) && Enabled(w, a) && IsSignalStep(a)
    ensures Fifo(Next(w, a))
  {
    if w.signal.Unset? && !w.worker.Idle? {
      assert w.taken[..0] == [];
    }
  }

  lemma FifoWorkerStep<E, X>(w: World<E, X>, a: Action<E, X>)
    requires Inv(w) && Enabled(w, a) && IsWorkerStep(a) && !a.Take?
    ensures Fifo(Next(w, a))
  {
  }

  lemma FifoTakeStep<E, X>(w: World<E, X>)
    requires Fifo(w) && Enabled(w, Take)
    ensures Fifo(Next(w, Take))
  {
    assert w.queue == [w.queue[0]] + w.queue[1..];
    assert (w.taken + [w.queue[0]])[..|w.taken|] == w.taken;
  }

  lemma FifoStep<E, X>(w: World<E, X>, a: Action<E, X>)
    requires Inv(w) && Enabled(w, a)
    ensures Fifo(Next(w, a))
  {
    if a.Take? {
      FifoTakeStep(w);
    } else if IsWorkerStep(a) {
      FifoWorkerStep(w, a);
    } else if IsSignalStep(a) {
      FifoSignalStep(w, a);
    } else {
      FifoCallerStep(w, a);
    }
  }

  lemma OnceProceed<E, X>(w: World<E, X>)
    requires Inv(w) && w.worker.Awaiting? && !w.signal.Unset?
    ensures AtMostOnce(Next(w, Proceed))
  {
    if w.signal.Succeeded? {
      var id := w.worker.id;
      assert w.offered[|w.taken| - 1] == id;
      assert id in w.offered;
      assert id !in w.workerStarted by {
        assert w.workerStarted == w.offered[..|w.taken| - 1];
      }
      assert id !in w.started;
    }
  }

  lemma OnceCall<E, X>(w: World<E, X>, id: Id)
    requires Inv(w) && id !in w.callers
    ensures AtMostOnce(Next(w, Call(id)))
  {
  }

  lemma OnceOffer<E, X>(w: World<E, X>, id: Id)
    requires Inv(w) && id in w.callers && w.callers[id] == SawPending
    ensures AtMostOnce(Next(w, Offer(id)))
  {
  }

  lemma OnceDirect<E, X>(w: World<E, X>, a: Action<E, X>)
    requires Inv(w) && Enabled(w, a) && (a.StartDirect? || a.FinishDirect?)
    ensures AtMostOnce(Next(w, a))
  {
    assert a.id !in w.offered;
    assert a.id !in w.workerStarted by {
      assert forall id :: id in w.workerStarted ==> id in w.taken;
      assert forall id :: id in w.taken ==> id in w.offered;
    }
  }

  lemma OnceStep<E, X>(w: World<E, X>, a: Action<E, X>)
    requires Inv(w) && Enabled(w, a)
    ensures AtMostOnce(Next(w, a))
  {
    match a
    case Call(id) => OnceCall(w, id);
    case Offer(id) => OnceOffer(w, id);
    case StartDirect(_) => OnceDirect(w, a);
    case FinishDirect(_, _) => OnceDirect(w, a);
    case Proceed => OnceProceed(w);
    case _ =>
  }

  /** Processed commands, and the one the worker holds, are queued callers. */
  lemma TakenAreQueued<E, X>(w: World<E, X>)
    requires Inv(w)
    ensures forall id :: id in w.taken ==> id in w.callers && w.callers[id] == Queued
    ensures forall id :: id in Processed(w) ==> id in w.taken
    ensures !w.worker.Idle? ==> w.worker.id !in Processed(w) && w.worker.id in w.taken
    ensures !w.worker.Idle? ==> w.taken == Processed(w) + [w.worker.id]
  {
    assert forall id :: id in w.taken ==> id in w.offered;
    if !w.worker.Idle? {
      LastTakenIsNew(w.taken, w.queue, w.offered);
      assert Processed(w) == w.taken[..|w.taken| - 1];
    }
  }

  lemma LastTakenIsNew(taken: seq<Id>, queue: seq<Id>, offered: seq<Id>)
    requires taken != [] && taken + queue == offered && Distinct(offered)
    ensures var last := taken[|taken| - 1];
      last in taken && last !in taken[..|taken| - 1] && taken == taken[..|taken| - 1] + [last]
  {
    assert forall i :: 0 <= i < |taken| ==> taken[i] == offered[i];
  }

  /** Settling or running a command that is not queued leaves the worker's debts alone. */
  lemma SettledFrame<E, X>(w: World<E, X>, v: World<E, X>)
    requires Inv(w)
    requires v.signal == w.signal && v.worker == w.worker && v.taken == w.taken
    requires forall id :: id in w.taken && id in w.settled ==> id in v.settled && v.settled[id] == w.settled[id]
    requires forall id :: id in w.taken && id in w.exits ==> id in v.exits && v.exits[id] == w.exits[id]
    requires forall id :: id in v.settled ==> id in v.callers && (v.callers[id] == Returned || id in Processed(w))
    ensures SettledRight(v)
  {
    TakenAreQueued(w);
    assert Processed(v) == Processed(w);
    forall id | id in Processed(v) ensures id in v.settled && Owes(v, id, v.settled[id]) {
      assert id in w.taken && id in w.settled && Owes(w, id, w.settled[id]);
    }
    if w.worker.Settling? {
      assert w.worker.id in w.taken && Owes(w, w.worker.id, w.worker.outcome);
    }
  }

  lemma SettledAdmitStep<E, X>(w: World<E, X>, id: Id, caller: Caller)
    requires Inv(w) && id !in w.callers
    ensures SettledRight(w.(callers := w.callers[id := caller]))
  {
    SettledFrame(w, w.(callers := w.callers[id := caller]));
  }

  lemma SettledRejectStep<E, X>(w: World<E, X>, id: Id, e: E)
    requires Inv(w) && id !in w.callers
    ensures SettledRight(w.(callers := w.callers[id := Returned], settled := w.settled[id := Rejected(e)]))
  {
    TakenAreQueued(w);
    assert id !in w.taken;
    SettledFrame(w, w.(callers := w.callers[id := Returned], settled := w.settled[id := Rejected(e)]));
  }

  lemma SettledCallStep<E, X>(w: World<E, X>, id: Id)
    requires Inv(w) && id !in w.callers
    ensures SettledRight(Next(w, Call(id)))
  {
    match w.readiness
    case Ready => SettledAdmitStep(w, id, SawReady);
    case Pending => SettledAdmitStep(w, id, SawPending);
    case Failed(e) => SettledRejectStep(w, id, e);
    case ShuttingDown(e) => SettledRejectStep(w, id, e);
  }

  lemma SettledOfferStep<E, X>(w: World<E, X>, id: Id)
    requires Inv(w) && Enabled(w, Offer(id))
    ensures SettledRight(Next(w, Offer(id)))
  {
    SettledFrame(w, Next(w, Offer(id)));
  }

  lemma SettledStartStep<E, X>(w: World<E, X>, id: Id)
    requires Inv(w) && Enabled(w, StartDirect(id))
    ensures SettledRight(Next(w, StartDirect(id)))
  {
    SettledFrame(w, Next(w, StartDirect(id)));
  }

  lemma SettledReturnStep<E, X>(w: World<E, X>, id: Id, x: X)
    requires Inv(w) && Enabled(w, FinishDirect(id, x))
    ensures SettledRight(Next(w, FinishDirect(id, x)))
  {
    TakenAreQueued(w);
    assert id !in w.taken;
    SettledFrame(w, Next(w, FinishDirect(id, x)));
  }

  lemma SettledSignalStep<E, X>(w: World<E, X>, a: Action<E, X>)
    requires Inv(w) && Enabled(w, a) && IsSignalStep(a)
    ensures SettledRight(Next(w, a))
  {
  }

  lemma SettledTakeStep<E, X>(w: World<E, X>)
    requires Inv(w) && Enabled(w, Take)
    ensures SettledRight(Next(w, Take))
  {
    assert (w.taken + [w.queue[0]])[..|w.taken|] == w.taken;
    assert Processed(Next(w, Take)) == Processed(w);
  }

  lemma SettledSettleStep<E, X>(w: World<E, X>)
    requires Inv(w) && Enabled(w, Settle)
    ensures SettledRight(Next(w, Settle))
  {
    TakenAreQueued(w);
    assert Processed(Next(w, Settle)) == w.taken;
  }

  lemma SettledProceedStep<E, X>(w: World<E, X>)
    requires Inv(w) && Enabled(w, Proceed)
    ensures SettledRight(Next(w, Proceed))
  {
    assert Processed(Next(w, Proceed)) == Processed(w);
  }

  lemma SettledFinishStep<E, X>(w: World<E, X>, x: X)
    requires Inv(w) && Enabled(w, FinishQueued(x))
    ensures SettledRight(Next(w, FinishQueued(x)))
  {
    TakenAreQueued(w);
    assert Processed(Next(w, FinishQueued(x))) == Processed(w);
  }

  lemma SettledStep<E, X>(w: World<E, X>, a: Action<E, X>)
    requires Inv(w) && Enabled(w, a)
    ensures SettledRight(Next(w, a))
  {
    if a.Call? {
      SettledCallStep(w, a.id);
    } else if a.Take? {
      SettledTakeStep(w);
    } else if a.Settle? {
      SettledSettleStep(w);
    } else if a.Proceed? {
      SettledProceedStep(w);
    } else if a.FinishQueued? {
      SettledFinishStep(w, a.exit);
    } else if a.Offer? {
      SettledOfferStep(w, a.id);
    } else if a.StartDirect? {
      SettledStartStep(w, a.id);
    } else if a.FinishDirect? {
      SettledReturnStep(w, a.id, a.exit);
    } else if IsSignalStep(a) {
      SettledSignalStep(w, a);
    } else {
      SettledFrame(w, Next(w, a));
    }
  }

  lemma StepKeepsInv<E, X>(w: World<E, X>, a: Action<E, X>)
    requires Inv(w) && Enabled(w, a)
    ensures Inv(Next(w, a))
  {
    if w.startup.Ended? {
      PhasesShutdownStep(w, a);
    } else {
      PhasesStartupStep(w, a);
    }
    EffectsStep(w, a);
    FifoStep(w, a);
    OnceStep(w, a);
    SettledStep(w, a);
  }

  // ----- what holds in every run -----

  lemma {:induction false} EveryRunKeepsInv<E, X>(w: World<E, X>, run: seq<Action<E, X>>)
    requires Inv(w) && Legal(w, run)
    ensures Inv(Run(w, run))
    decreases |run|
  {
    if run != [] {
      StepKeepsInv(w, run[0]);
      EveryRunKeepsInv(Next(w, run[0]), run[1..]);
    }
  }

  /** In every interleaving: no effect before commands are ready, queued commands start in
      the order they were offered, and no command runs twice. */
  lemma CommandsRunInOrderAndOnce<E, X>(run: seq<Action<E, X>>)
    requires Legal(Init<E, X>(), run)
    ensures var w := Run(Init<E, X>(), run);
            && (w.started != [] ==> w.wasReady)
            && w.workerStarted <= w.taken <= w.offered
            && Distinct(w.offered) && Distinct(w.started)
  {
    EveryRunKeepsInv(Init<E, X>(), run);
  }

  /** Every command the worker is done with is settled, with its own exit or with the
      readiness error, and nobody else is settled by it. */
  lemma ProcessedCommandsAreSettled<E, X>(run: seq<Action<E, X>>, id: Id)
    requires Legal(Init<E, X>(), run)
    ensures var w := Run(Init<E, X>(), run);
            && (id in Processed(w) ==> id in w.settled && Owes(w, id, w.settled[id]))
            && (id in w.offered && id !in Processed(w) ==> id !in w.settled)
  {
    EveryRunKeepsInv(Init<E, X>(), run);
  }

  lemma ClosingStepSticks<E, X>(w: World<E, X>, a: Action<E, X>)
    requires Enabled(w, a)
    ensures w.wasFailed ==> Next(w, a).wasFailed
    ensures w.closedFromPending ==> Next(w, a).closedFromPending
  {
  }

  lemma {:induction false} ClosingSticks<E, X>(w: World<E, X>, run: seq<Action<E, X>>)
    requires Legal(w, run)
    ensures w.wasFailed ==> Run(w, run).wasFailed
    ensures w.closedFromPending ==> Run(w, run).closedFromPending
    decreases |run|
  {
    if run != [] {
      ClosingStepSticks(w, run[0]);
      ClosingSticks(Next(w, run[0]), run[1..]);
    }
  }

  lemma {:induction false} RunsCompose<E, X>(w: World<E, X>, a: seq<Action<E, X>>, b: seq<Action<E, X>>)
    requires Legal(w, a) && Legal(Run(w, a), b)
    ensures Legal(w, a + b) && Run(w, a + b) == Run(Run(w, a), b)
    decreases |a|
  {
    if a == [] {
      assert a + b == b;
    } else {
      assert (a + b)[1..] == a[1..] + b;
      RunsCompose(Next(w, a[0]), a[1..], b);
    }
  }

  /** Once startup has failed, or shutdown has found commands pending, no effect ever runs,
      however the run goes on. */
  lemma ClosedGateNeverRuns<E, X>(run: seq<Action<E, X>>, more: seq<Action<E, X>>)
    requires Legal(Init<E, X>(), run) && Legal(Run(Init<E, X>(), run), more)
    requires var w := Run(Init<E, X>(), run); w.wasFailed || w.closedFromPending
    ensures Run(Run(Init<E, X>(), run), more).started == []
  {
    EveryRunKeepsInv(Init<E, X>(), run);
    EveryRunKeepsInv(Run(Init<E, X>(), run), more);
    ClosingSticks(Run(Init<E, X>(), run), more);
  }

  /** After shutdown the Deferred is still open exactly when the startup fiber was
      interrupted between setting the readiness and completing it; only then can a queued
      command wait for ever. */
  lemma DeferredOpenIffInterruptedMidSignal<E, X>(run: seq<Action<E, X>>)
    requires Legal(Init<E, X>(), run)
    requires Run(Init<E, X>(), run).shutdown.Finished?
    ensures var w := Run(Init<E, X>(), run);
            w.startup.Ended? && (w.signal.Unset? <==> w.startup.interruptedMidSignal)
  {
    EveryRunKeepsInv(Init<E, X>(), run);
  }

  // ----- what a caller gets -----

  /** The gate refuses calls, with this error. */
  ghost predicate ClosedWith<E, X>(w: World<E, X>, error: E) {
    w.readiness == Failed(error) || w.readiness == ShuttingDown(error)
  }

  /** A rejected command never ran and carries the error that the gate is closed with; one that
      exited ran, and carries its own exit. */
  ghost predicate AnswersRight<E, X>(w: World<E, X>) {
    && (forall id :: id in w.settled && w.settled[id].Rejected? ==> ClosedWith(w, w.settled[id].error) && id !in w.started)
    && (forall id :: id in w.settled && w.settled[id].Exited? ==>
          id in w.started && id in w.exits && w.exits[id] == w.settled[id].exit)
    && (forall id :: id in w.callers && w.callers[id] == RunningDirect ==> id in w.started)
    && (w.signal.FailedWith? ==> ClosedWith(w, w.signal.error))
    && (w.shutdown.PendingClosed? ==> ClosedWith(w, w.shutdown.error))
  }

  lemma CallAnswers<E, X>(w: World<E, X>, id: Id)
    requires Inv(w) && AnswersRight(w) && id !in w.callers
    ensures AnswersRight(Next(w, Call(id)))
  {
    assert id !in w.started && id !in w.settled;
  }

  lemma SettleAnswers<E, X>(w: World<E, X>)
    requires Inv(w) && AnswersRight(w) && w.worker.Settling?
    ensures AnswersRight(Next(w, Settle))
  {
    TakenAreQueued(w);
    assert Owes(w, w.worker.id, w.worker.outcome);
  }

  lemma ExitAnswers<E, X>(w: World<E, X>, a: Action<E, X>)
    requires Inv(w) && AnswersRight(w) && Enabled(w, a) && (a.FinishDirect? || a.FinishQueued?)
    ensures AnswersRight(Next(w, a))
  {
    TakenAreQueued(w);
  }

  lemma ProceedAnswers<E, X>(w: World<E, X>)
    requires Inv(w) && AnswersRight(w) && Enabled(w, Proceed)
    ensures AnswersRight(Next(w, Proceed))
  {
    TakenAreQueued(w);
  }

  lemma ReadinessAnswers<E, X>(w: World<E, X>, a: Action<E, X>)
    requires Inv(w) && AnswersRight(w) && Enabled(w, a) && (a.SetReady? || a.SetFailed? || a.SetShuttingDown?)
    ensures AnswersRight(Next(w, a))
  {
    assert forall id :: id in w.settled ==> w.settled[id].Exited? || ClosedWith(w, w.settled[id].error);
  }

  lemma SignalAnswers<E, X>(w: World<E, X>, a: Action<E, X>)
    requires Inv(w) && AnswersRight(w) && Enabled(w, a)
    requires IsSignalStep(a)
    ensures AnswersRight(Next(w, a))
  {
  }

  lemma OtherAnswers<E, X>(w: World<E, X>, a: Action<E, X>)
    requires Inv(w) && AnswersRight(w) && Enabled(w, a)
    requires a.Offer? || a.StartDirect? || a.Take? || a.InterruptStartup? || a.BeginShutdown?
    ensures AnswersRight(Next(w, a))
  {
  }

  lemma StepAnswers<E, X>(w: World<E, X>, a: Action<E, X>)
    requires Inv(w) && AnswersRight(w) && Enabled(w, a)
    ensures AnswersRight(Next(w, a))
  {
    match a
    case Call(id) => CallAnswers(w, id);
    case Settle => SettleAnswers(w);
    case FinishDirect(_, _) => ExitAnswers(w, a);
    case FinishQueued(_) => ExitAnswers(w, a);
    case Proceed => ProceedAnswers(w);
    case SetReady => ReadinessAnswers(w, a);
    case SetFailed(_) => ReadinessAnswers(w, a);
    case SetShuttingDown => ReadinessAnswers(w, a);
    case SignalReady => SignalAnswers(w, a);
    case SignalFailed => SignalAnswers(w, a);
    case FailPending => SignalAnswers(w, a);
    case _ => OtherAnswers(w, a);
  }

  /** So it is in every run: whoever gets an exit ran, and whoever gets the error never did. */
  lemma {:induction false} EveryAnswerIsRight<E, X>(w: World<E, X>, run: seq<Action<E, X>>)
    requires Inv(w) && AnswersRight(w) && Legal(w, run)
    ensures AnswersRight(Run(w, run))
    decreases |run|
  {
    if run != [] {
      StepKeepsInv(w, run[0]);
      StepAnswers(w, run[0]);
      EveryAnswerIsRight(Next(w, run[0]), run[1..]);
    }
  }

  /** The answer `outcome` was given directly, not by the worker. */
  ghost predicate Answered<E, X>(w: World<E, X>, id: Id, outcome: Outcome<E, X>) {
    && id in w.callers && w.callers[id] == Returned && id in w.settled && w.settled[id] == outcome
    && (outcome.Rejected? ==> id !in w.started)
  }

  lemma AnsweredStep<E, X>(w: World<E, X>, id: Id, outcome: Outcome<E, X>, a: Action<E, X>)
    requires Inv(w) && Answered(w, id, outcome) && Enabled(w, a)
    ensures Answered(Next(w, a), id, outcome)
  {
    TakenAreQueued(w);
  }

  lemma {:induction false} AnswerSticks<E, X>(w: World<E, X>, id: Id, outcome: Outcome<E, X>, run: seq<Action<E, X>>)
    requires Inv(w) && Answered(w, id, outcome) && Legal(w, run)
    ensures Answered(Run(w, run), id, outcome) && id !in Run(w, run).offered
    decreases |run|
  {
    if run != [] {
      StepKeepsInv(w, run[0]);
      AnsweredStep(w, id, outcome, run[0]);
      AnswerSticks(Next(w, run[0]), id, outcome, run[1..]);
    }
  }

  /** A call to a closed gate is rejected with the gate's error, and the command is never queued
      and never runs, however the run goes on. */
  lemma ClosedGateRefuses<E, X>(run: seq<Action<E, X>>, id: Id, error: E, more: seq<Action<E, X>>)
    requires Legal(Init<E, X>(), run) && ClosedWith(Run(Init<E, X>(), run), error)
    requires id !in Run(Init<E, X>(), run).callers && Legal(Next(Run(Init<E, X>(), run), Call(id)), more)
    ensures var w := Run(Next(Run(Init<E, X>(), run), Call(id)), more);
      id in w.settled && w.settled[id] == Rejected(error) && id !in w.offered && id !in w.started
  {
    var w := Run(Init<E, X>(), run);
    EveryRunKeepsInv(Init<E, X>(), run);
    StepKeepsInv(w, Call(id));
    AnswerSticks(Next(w, Call(id)), id, Rejected(error), more);
  }

  /** A command run directly is settled with its own exit for good. */
  lemma DirectCommandGetsItsExit<E, X>(run: seq<Action<E, X>>, id: Id, exit: X, more: seq<Action<E, X>>)
    requires Legal(Init<E, X>(), run) && Enabled(Run(Init<E, X>(), run), FinishDirect(id, exit))
    requires Legal(Next(Run(Init<E, X>(), run), FinishDirect(id, exit)), more)
    ensures var w := Run(Next(Run(Init<E, X>(), run), FinishDirect(id, exit)), more);
      id in w.settled && w.settled[id] == Exited(exit) && id !in w.offered
  {
    var w := Run(Init<E, X>(), run);
    EveryRunKeepsInv(Init<E, X>(), run);
    StepKeepsInv(w, FinishDirect(id, exit));
    AnswerSticks(Next(w, FinishDirect(id, exit)), id, Exited(exit), more);
  }

  /** How a command that was let in is on its way: directly, or by the queue. */
  ghost predicate OnItsWay<E, X>(w: World<E, X>, id: Id, direct: bool) {
    && id in w.callers
    && (if direct then
          && id !in w.offered
          && (w.callers[id] == SawReady || w.callers[id] == RunningDirect || (w.callers[id] == Returned && id in w.settled && w.settled[id].Exited?))
        else w.callers[id] == SawPending || w.callers[id] == Queued)
  }

  lemma OnItsWayStep<E, X>(w: World<E, X>, id: Id, direct: bool, a: Action<E, X>)
    requires Inv(w) && OnItsWay(w, id, direct) && Enabled(w, a)
    ensures OnItsWay(Next(w, a), id, direct)
  {
    TakenAreQueued(w);
  }

  lemma {:induction false} StaysOnItsWay<E, X>(w: World<E, X>, id: Id, direct: bool, run: seq<Action<E, X>>)
    requires Inv(w) && OnItsWay(w, id, direct) && Legal(w, run)
    ensures OnItsWay(Run(w, run), id, direct) && Inv(Run(w, run))
    decreases |run|
  {
    if run != [] {
      StepKeepsInv(w, run[0]);
      OnItsWayStep(w, id, direct, run[0]);
      StaysOnItsWay(Next(w, run[0]), id, direct, run[1..]);
    }
  }

  lemma LetInOnItsWay<E, X>(w: World<E, X>, id: Id)
    requires Inv(w) && id !in w.callers && (w.readiness.Ready? || w.readiness.Pending?)
    ensures OnItsWay(Next(w, Call(id)), id, w.readiness.Ready?) && Inv(Next(w, Call(id)))
  {
    StepKeepsInv(w, Call(id));
    assert id !in w.offered;
  }

  /** A call that finds commands ready is never queued nor rejected. */
  lemma ReadyGateRunsDirectly<E, X>(run: seq<Action<E, X>>, id: Id, more: seq<Action<E, X>>)
    requires Legal(Init<E, X>(), run) && id !in Run(Init<E, X>(), run).callers
    requires Run(Init<E, X>(), run).readiness.Ready?
    requires Legal(Next(Run(Init<E, X>(), run), Call(id)), more)
    ensures var w := Run(Next(Run(Init<E, X>(), run), Call(id)), more);
      id !in w.offered && (id in w.settled ==> w.settled[id].Exited?)
  {
    var w := Run(Init<E, X>(), run);
    EveryRunKeepsInv(Init<E, X>(), run);
    LetInOnItsWay(w, id);
    StaysOnItsWay(Next(w, Call(id)), id, true, more);
  }

  /** A call that finds commands pending runs only by the worker, if at all. */
  lemma PendingGateQueues<E, X>(run: seq<Action<E, X>>, id: Id, more: seq<Action<E, X>>)
    requires Legal(Init<E, X>(), run) && id !in Run(Init<E, X>(), run).callers
    requires Run(Init<E, X>(), run).readiness.Pending?
    requires Legal(Next(Run(Init<E, X>(), run), Call(id)), more)
    ensures var w := Run(Next(Run(Init<E, X>(), run), Call(id)), more);
      id in w.started ==> id in w.workerStarted
  {
    var w := Run(Init<E, X>(), run);
    EveryRunKeepsInv(Init<E, X>(), run);
    LetInOnItsWay(w, id);
    StaysOnItsWay(Next(w, Call(id)), id, false, more);
  }

  // ----- which error it is -----

  lemma ClosedStepSticks<E, X>(w: World<E, X>, a: Action<E, X>)
    requires Inv(w) && (w.readiness.Failed? || w.readiness.ShuttingDown?) && Enabled(w, a)
    ensures Next(w, a).readiness == w.readiness
  {
  }

  lemma {:induction false} ClosedSticks<E, X>(w: World<E, X>, run: seq<Action<E, X>>)
    requires Inv(w) && (w.readiness.Failed? || w.readiness.ShuttingDown?) && Legal(w, run)
    ensures Run(w, run).readiness == w.readiness
    decreases |run|
  {
    if run != [] {
      StepKeepsInv(w, run[0]);
      ClosedStepSticks(w, run[0]);
      ClosedSticks(Next(w, run[0]), run[1..]);
    }
  }

  /** A start that failed closes the gate with its error for good. */
  lemma FailedStartCloses<E, X>(run: seq<Action<E, X>>, error: E, more: seq<Action<E, X>>)
    requires Legal(Init<E, X>(), run) && Enabled(Run(Init<E, X>(), run), SetFailed(error))
    requires Legal(Next(Run(Init<E, X>(), run), SetFailed(error)), more)
    ensures Run(Next(Run(Init<E, X>(), run), SetFailed(error)), more).readiness == Failed(error)
  {
    var w := Run(Init<E, X>(), run);
    EveryRunKeepsInv(Init<E, X>(), run);
    StepKeepsInv(w, SetFailed(error));
    ClosedSticks(Next(w, SetFailed(error)), more);
  }

  /** Shutdown began with this error, and found the gate open. */
  ghost predicate ClosingWith<E, X>(w: World<E, X>, error: E) {
    || w.readiness == ShuttingDown(error)
    || (w.shutdown == FoundPending(error) && w.readiness.Pending?)
    || (w.shutdown == FoundReady(error) && w.readiness.Ready?)
  }

  lemma ClosingStep<E, X>(w: World<E, X>, error: E, a: Action<E, X>)
    requires Inv(w) && ClosingWith(w, error) && Enabled(w, a)
    ensures ClosingWith(Next(w, a), error)
  {
  }

  lemma {:induction false} ClosingRun<E, X>(w: World<E, X>, error: E, run: seq<Action<E, X>>)
    requires Inv(w) && ClosingWith(w, error) && Legal(w, run)
    ensures ClosingWith(Run(w, run), error)
    decreases |run|
  {
    if run != [] {
      StepKeepsInv(w, run[0]);
      ClosingStep(w, error, run[0]);
      ClosingRun(Next(w, run[0]), error, run[1..]);
    }
  }

  /** Once it has finished, a shutdown of a gate that no failed start had closed has closed it,
      with the error of the shutdown. */
  lemma ShutdownCloses<E, X>(run: seq<Action<E, X>>, error: E, more: seq<Action<E, X>>)
    requires Legal(Init<E, X>(), run) && Enabled(Run(Init<E, X>(), run), BeginShutdown(error))
    requires !Run(Init<E, X>(), run).readiness.Failed?
    requires Legal(Next(Run(Init<E, X>(), run), BeginShutdown(error)), more)
    ensures var w := Run(Next(Run(Init<E, X>(), run), BeginShutdown(error)), more);
      w.shutdown.Finished? ==> w.readiness == ShuttingDown(error)
  {
    var w := Run(Init<E, X>(), run);
    EveryRunKeepsInv(Init<E, X>(), run);
    StepKeepsInv(w, BeginShutdown(error));
    ClosingRun(Next(w, BeginShutdown(error)), error, more);
  }

  /** A shutdown that has begun is over after at most two more of its own steps, which nothing
      can hold up. */
  lemma ShutdownEnds<E, X>(w: World<E, X>) returns (steps: seq<Action<E, X>>)
    requires !w.shutdown.NotBegun?
    ensures |steps| <= 2 && Legal(w, steps) && Run(w, steps).shutdown.Finished?
    ensures forall a :: a in steps ==> a.SetShuttingDown? || a.FailPending?
  {
    match w.shutdown
    case Finished => steps := [];
    case FoundReady(_) =>
      steps := [SetShuttingDown];
      assert steps[1..] == [];
    case PendingClosed(_) =>
      steps := [FailPending];
      assert steps[1..] == [];
    case FoundPending(_) =>
      steps := [SetShuttingDown, FailPending];
      assert steps[1..] == [FailPending] && steps[1..][1..] == [];
  }

  lemma OneMore<E, X>(run: seq<Action<E, X>>, a: Action<E, X>)
    requires Legal(Init<E, X>(), run) && Enabled(Run(Init<E, X>(), run), a)
    ensures Legal(Init<E, X>(), run + [a]) && Run(Init<E, X>(), run + [a]) == Next(Run(Init<E, X>(), run), a)
  {
    assert [a][1..] == [];
    assert Run(Next(Run(Init<E, X>(), run), a), []) == Next(Run(Init<E, X>(), run), a);
    RunsCompose(Init<E, X>(), run, [a]);
  }

  /** Startup sets the readiness and is interrupted before it completes the Deferred, with
      command 0 in the hands of the worker. */
  lemma InterruptMidSignal<E, X>() returns (run: seq<Action<E, X>>)
    ensures Legal(Init<E, X>(), run)
    ensures var w := Run(Init<E, X>(), run);
      && w.readiness.Ready? && w.signal.Unset? && w.startup == Ended(true) && w.shutdown.NotBegun?
      && 0 in w.callers && w.callers[0] == Queued
  {
    run := [];
    OneMore(run, Call(0));
    run := run + [Call(0)];
    OneMore(run, Offer(0));
    run := run + [Offer(0)];
    OneMore(run, Take);
    run := run + [Take];
    OneMore(run, SetReady);
    run := run + [SetReady];
    OneMore(run, InterruptStartup);
    run := run + [InterruptStartup];
  }

  /** Nobody is left to complete the Deferred. */
  ghost predicate Stranded<E, X>(w: World<E, X>, id: Id) {
    && w.startup.Ended? && w.shutdown.Finished? && w.signal.Unset?
    && id in w.callers && w.callers[id] == Queued
  }

  lemma {:induction false} StrandedForEver<E, X>(w: World<E, X>, id: Id, run: seq<Action<E, X>>)
    requires Inv(w) && Stranded(w, id) && Legal(w, run)
    ensures Stranded(Run(w, run), id) && id !in Run(w, run).settled
    decreases |run|
  {
    if run != [] {
      StepKeepsInv(w, run[0]);
      StrandedForEver(Next(w, run[0]), id, run[1..]);
    }
  }

  /** Such a run exists, and its queued command is never settled, however the run goes on. */
  lemma InterruptedStartupStrandsCommand<E, X>(error: E) returns (run: seq<Action<E, X>>)
    ensures Legal(Init<E, X>(), run) && Stranded(Run(Init<E, X>(), run), 0)
    ensures forall more :: Legal(Run(Init<E, X>(), run), more) ==> 0 !in Run(Run(Init<E, X>(), run), more).settled
  {
    run := InterruptMidSignal();
    OneMore(run, BeginShutdown(error));
    run := run + [BeginShutdown(error)];
    OneMore(run, SetShuttingDown);
    run := run + [SetShuttingDown];
    EveryRunKeepsInv(Init<E, X>(), run);
    forall more | Legal(Run(Init<E, X>(), run), more)
      ensures 0 !in Run(Run(Init<E, X>(), run), more).settled
    {
      StrandedForEver(Run(Init<E, X>(), run), 0, more);
    }
  }

  /** The worker's next step, giving a running command the exit `exit`. */
  ghost function WorkerStep<E, X>(w: World<E, X>, exit: X): Action<E, X>
    requires !w.worker.Idle? || w.queue != []
  {
    match w.worker
    case Idle => Take
    case Awaiting(_) => Proceed
    case Running(_) => FinishQueued(exit)
    case Settling(_, _) => Settle
  }

  ghost function WorkLeft<E, X>(w: World<E, X>): nat {
    4 * |w.queue| + match w.worker
                    case Idle => 0
                    case Awaiting(_) => 3
                    case Running(_) => 2
                    case Settling(_, _) => 1
  }

  lemma WorkerStepWorks<E, X>(w: World<E, X>, exit: X)
    requires Inv(w) && !w.signal.Unset? && (!w.worker.Idle? || w.queue != [])
    ensures var a := WorkerStep(w, exit);
      Enabled(w, a) && WorkLeft(Next(w, a)) < WorkLeft(w)
      && Next(w, a).offered == w.offered && Next(w, a).signal == w.signal
  {
  }

  /** Once the Deferred is completed the worker is never stuck, and left to itself it
      settles every command offered so far. */
  lemma {:induction false} WorkerDrains<E, X>(w: World<E, X>, exit: X) returns (run: seq<Action<E, X>>)
    requires Inv(w) && !w.signal.Unset?
    ensures |run| <= WorkLeft(w) && Legal(w, run)
    ensures forall id :: id in w.offered ==> id in Run(w, run).settled && Owes(Run(w, run), id, Run(w, run).settled[id])
    decreases WorkLeft(w)
  {
    if w.worker.Idle? && w.queue == [] {
      run := [];
      assert w.taken + w.queue == w.taken;
    } else {
      var a := WorkerStep(w, exit);
      WorkerStepWorks(w, exit);
      StepKeepsInv(w, a);
      var v := Next(w, a);
      var rest := WorkerDrains(v, exit);
      run := [a] + rest;
      assert run[1..] == rest;
    }
  }
}
