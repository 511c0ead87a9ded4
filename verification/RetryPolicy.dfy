/**
 * The bounded retry of replays (apps/web/src/orchestrationRecovery.ts:39-86), driven by
 * the completions the coordinator of `Recovery` reports.
 */
module RetryPolicy {
  import opened Prelude
  import Recovery

  datatype Tracker = Tracker(attempts: nat, latestSequence: nat, highestObservedSequence: nat)

  datatype Decision = Decision(shouldRetry: bool, delayMs: nat, tracker: Option<Tracker>)

  datatype Policy = Policy(baseDelayMs: nat, maxNoProgressRetries: nat)

  function Pow2(n: nat): nat {
    if n == 0 then 1 else 2 * Pow2(n - 1)
  }

  const STOP := Decision(false, 0, None)

  function Decide(policy: Policy, previous: Option<Tracker>, completion: Recovery.Completion, state: Recovery.State): Decision {
    if !completion.shouldReplay then STOP
    else if completion.replayMadeProgress then Decision(true, 0, None)
    else
      var sameFrontier := && previous.Some?
                          && previous.value.latestSequence == state.latestSequence
                          && previous.value.highestObservedSequence == state.highestObservedSequence;
      var attempts := if sameFrontier then previous.value.attempts + 1 else 1;
      if attempts > policy.maxNoProgressRetries then STOP
      else
        Decision(true, policy.baseDelayMs * Pow2(attempts - 1),
                 Some(Tracker(attempts, state.latestSequence, state.highestObservedSequence)))
  }

  // ----- the retry loop -----

  /** One replay that moves the cursor by `gain` and completes. */
  function ReplayOnce(state: Recovery.State, gain: nat): (Recovery.State, Recovery.Completion) {
    var began := Recovery.BeginReplay(state, Recovery.SequenceGap).0;
    var latest := began.latestSequence + gain;
    Recovery.CompleteReplay(
      began.(latestSequence := latest, highestObservedSequence := Max(began.highestObservedSequence, latest)))
  }

  datatype Cost = Cost(retries: nat, delayMs: nat)

  /** What retrying costs when the successive replays gain `gains`, until the policy stops. */
  function Drive(policy: Policy, tracker: Option<Tracker>, state: Recovery.State, gains: seq<nat>): Cost
    decreases |gains|
  {
    if gains == [] then Cost(0, 0)
    else
      var (next, completion) := ReplayOnce(state, gains[0]);
      var decision := Decide(policy, tracker, completion, next);
      if !decision.shouldRetry then Cost(0, 0)
      else
        var rest := Drive(policy, decision.tracker, next, gains[1..]);
        Cost(1 + rest.retries, decision.delayMs + rest.delayMs)
  }

  /** Nothing is in flight and no event arrives on the side. */
  ghost predicate Idle(s: Recovery.State) {
    && s.bootstrapped && s.inFlight.None? && s.replayStartSequence.None? && !s.pendingReplay
    && s.latestSequence <= s.highestObservedSequence
  }

  ghost function Gap(s: Recovery.State): nat
    requires Idle(s)
  {
    s.highestObservedSequence - s.latestSequence
  }

  /** Attempts already counted against the frontier the client stands at. */
  ghost function Spent(tracker: Option<Tracker>, s: Recovery.State): nat {
    if tracker.Some? && tracker.value.latestSequence == s.latestSequence
       && tracker.value.highestObservedSequence == s.highestObservedSequence
    then tracker.value.attempts else 0
  }

  /** Every retry closes part of the gap, or keeps it and uses up one attempt. */
  lemma RetryDecreasesMeasure(policy: Policy, tracker: Option<Tracker>, state: Recovery.State, gain: nat)
    requires Idle(state)
    requires var (next, completion) := ReplayOnce(state, gain);
             Decide(policy, tracker, completion, next).shouldRetry
    ensures var (next, completion) := ReplayOnce(state, gain);
            var decision := Decide(policy, tracker, completion, next);
            && Idle(next)
            && Gap(next) > 0
            && (if gain > 0
                then Gap(next) == Gap(state) - gain && Spent(decision.tracker, next) == 0 && decision.delayMs == 0
                else && next == state
                     && Spent(decision.tracker, next) == Spent(tracker, state) + 1 <= policy.maxNoProgressRetries
                     && decision.delayMs == policy.baseDelayMs * Pow2(Spent(tracker, state)))
  {
  }

  /** A replay is retried exactly while something observed is missing, and, if it gained nothing,
      attempts are left; after a gain at once and from a fresh count. */
  lemma RetriesExactlyWhen(policy: Policy, tracker: Option<Tracker>, state: Recovery.State, gain: nat)
    requires Idle(state)
    ensures var (next, completion) := ReplayOnce(state, gain);
            var decision := Decide(policy, tracker, completion, next);
            && Idle(next) && next.latestSequence == state.latestSequence + gain
            && next.highestObservedSequence == Max(state.highestObservedSequence, next.latestSequence)
            && (decision.shouldRetry
                <==> state.latestSequence + gain < state.highestObservedSequence
                     && (gain > 0 || Spent(tracker, state) < policy.maxNoProgressRetries))
            && (gain > 0 ==> decision.delayMs == 0 && decision.tracker.None?)
            && (!decision.shouldRetry ==> decision == Decision(false, 0, None))
  {
  }

  lemma Pow2Grows(a: nat, b: nat)
    requires a <= b
    ensures Pow2(a) <= Pow2(b)
    decreases b
  {
    if a < b {
      Pow2Grows(a, b - 1);
    }
  }

  /** The first retry of a drive, if there is one, and the drive that is left after it. */
  lemma FirstRetry(policy: Policy, tracker: Option<Tracker>, state: Recovery.State, gains: seq<nat>)
      returns (retried: bool, tracker': Option<Tracker>, state': Recovery.State)
    requires Idle(state) && gains != []
    ensures !retried ==> Drive(policy, tracker, state, gains) == Cost(0, 0)
    ensures retried ==>
      var rest := Drive(policy, tracker', state', gains[1..]);
      var spent := Spent(tracker, state);
      && Idle(state') && Gap(state') > 0
      && Drive(policy, tracker, state, gains).retries == 1 + rest.retries
      && (if gains[0] > 0
          then && Gap(state') == Gap(state) - gains[0] && Spent(tracker', state') == 0
               && Drive(policy, tracker, state, gains).delayMs == rest.delayMs
          else && state' == state
               && Spent(tracker', state') == spent + 1 <= policy.maxNoProgressRetries
               && Drive(policy, tracker, state, gains).delayMs
                  == policy.baseDelayMs * Pow2(spent) + rest.delayMs)
    ensures !retried && Gap(state) > 0 && gains[0] == 0 ==>
      Spent(tracker, state) + 1 > policy.maxNoProgressRetries
  {
    var (next, completion) := ReplayOnce(state, gains[0]);
    var decision := Decide(policy, tracker, completion, next);
    state', retried, tracker' := next, decision.shouldRetry, decision.tracker;
    if retried {
      RetryDecreasesMeasure(policy, tracker, state, gains[0]);
    }
  }

  lemma {:induction false} ProductStep(large: nat, small: nat, m: nat)
    requires small < large
    ensures small * m + m <= large * m
  {
    if small + 1 < large {
      ProductStep(large - 1, small, m);
    }
    assert large * m == (large - 1) * m + m;
  }

  ghost function RetryBudget(policy: Policy, gap: nat, spent: nat): int {
    gap * (policy.maxNoProgressRetries + 1) - 1 - spent
  }

  /** However the replays go, the number of retries is bounded by the gap and the attempts
      left, so the loop ends. */
  lemma {:induction false} RetriesAreBounded(policy: Policy, tracker: Option<Tracker>, state: Recovery.State, gains: seq<nat>)
    requires Idle(state) && Gap(state) > 0 && Spent(tracker, state) <= policy.maxNoProgressRetries
    ensures Drive(policy, tracker, state, gains).retries <= RetryBudget(policy, Gap(state), Spent(tracker, state))
    decreases |gains|
  {
    var m := policy.maxNoProgressRetries + 1;
    ProductStep(Gap(state), 0, m);
    if gains != [] {
      var retried, tracker', state' := FirstRetry(policy, tracker, state, gains);
      if retried {
        RetriesAreBounded(policy, tracker', state', gains[1..]);
        if gains[0] > 0 {
          ProductStep(Gap(state), Gap(state'), m);
        }
      }
    }
  }

  ghost function OneFrontierDelay(policy: Policy, from: nat, to: nat): int {
    policy.baseDelayMs * (Pow2(to) - Pow2(from))
  }

  lemma OneFrontierDelayStep(policy: Policy, from: nat, to: nat)
    ensures OneFrontierDelay(policy, from, to)
         == policy.baseDelayMs * Pow2(from) + OneFrontierDelay(policy, from + 1, to)
  {
    assert Pow2(from + 1) == 2 * Pow2(from);
    assert policy.baseDelayMs * (Pow2(to) - Pow2(from))
        == policy.baseDelayMs * Pow2(from) + policy.baseDelayMs * (Pow2(to) - 2 * Pow2(from));
  }

  lemma OneFrontierDelayIsNat(policy: Policy, from: nat, to: nat)
    requires from <= to
    ensures OneFrontierDelay(policy, from, to) >= 0
  {
    Pow2Grows(from, to);
  }

  /** Standing at one frontier, the loop retries exactly until its attempts run out, and
      the delays double: their sum is the base times a difference of powers of two. */
  lemma {:induction false} OneFrontierCost(policy: Policy, tracker: Option<Tracker>, state: Recovery.State, gains: seq<nat>)
    requires Idle(state) && Gap(state) > 0 && Spent(tracker, state) <= policy.maxNoProgressRetries
    requires forall i :: 0 <= i < |gains| ==> gains[i] == 0
    ensures var cost := Drive(policy, tracker, state, gains);
            var spent := Spent(tracker, state);
            && cost.retries == Min(|gains|, policy.maxNoProgressRetries - spent)
            && cost.delayMs == OneFrontierDelay(policy, spent, spent + cost.retries)
    decreases |gains|
  {
    if gains != [] {
      var retried, tracker', state' := FirstRetry(policy, tracker, state, gains);
      if retried {
        OneFrontierCost(policy, tracker', state', gains[1..]);
        var spent := Spent(tracker, state);
        OneFrontierDelayStep(policy, spent, spent + 1 + Drive(policy, tracker', state', gains[1..]).retries);
      }
    }
  }

  ghost function DelayBudget(policy: Policy, gap: nat, spent: nat): int {
    OneFrontierDelay(policy, spent, policy.maxNoProgressRetries)
    + (gap - 1) * OneFrontierDelay(policy, 0, policy.maxNoProgressRetries)
  }

  /** Progress gives up what is left of one frontier's budget for at most the next one's. */
  lemma DelayBudgetStep(policy: Policy, large: nat, small: nat, spent: nat)
    requires 0 < small <= large && spent <= policy.maxNoProgressRetries
    ensures 0 <= DelayBudget(policy, large, spent)
    ensures small < large ==> DelayBudget(policy, small, 0) <= DelayBudget(policy, large, spent)
  {
    var whole := OneFrontierDelay(policy, 0, policy.maxNoProgressRetries);
    OneFrontierDelayIsNat(policy, 0, policy.maxNoProgressRetries);
    OneFrontierDelayIsNat(policy, spent, policy.maxNoProgressRetries);
    if large > 1 {
      ProductStep(large - 1, 0, whole);
    }
    if small < large {
      ProductStep(large, small, whole);
      assert (large - 1) * whole == large * whole - whole;
      assert (small - 1) * whole == small * whole - whole;
    }
  }

  /** The total delay is at most the base times (2^max - 1) for each frontier the loop can
      stand at, and there are at most as many of those as the gap is wide. */
  lemma {:induction false} DelayIsBounded(policy: Policy, tracker: Option<Tracker>, state: Recovery.State, gains: seq<nat>)
    requires Idle(state) && Gap(state) > 0 && Spent(tracker, state) <= policy.maxNoProgressRetries
    ensures Drive(policy, tracker, state, gains).delayMs <= DelayBudget(policy, Gap(state), Spent(tracker, state))
    decreases |gains|
  {
    var spent := Spent(tracker, state);
    DelayBudgetStep(policy, Gap(state), Gap(state), spent);
    if gains != [] {
      var retried, tracker', state' := FirstRetry(policy, tracker, state, gains);
      if retried {
        DelayIsBounded(policy, tracker', state', gains[1..]);
        if gains[0] > 0 {
          DelayBudgetStep(policy, Gap(state), Gap(state'), spent);
        } else {
          OneFrontierDelayStep(policy, spent, policy.maxNoProgressRetries);
        }
      }
    }
  }
}
