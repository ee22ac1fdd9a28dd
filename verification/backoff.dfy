/**
 The coordinator's failure accounting: a consecutive-failure counter and the
 current update interval, advanced by the outcome of each update attempt.
 */
module Backoff {
  import opened Constants

  /** `consecutive_failures` and `update_interval` (minutes) of the coordinator. */
  datatype Tracker = Tracker(consecutiveFailures: nat, updateInterval: int)

  /** How an update attempt ended. */
  datatype Outcome =
    | Fetched            // the events were fetched and reshaped
    | NetworkFailure     // ConnectionError or TimeoutError
    | OtherFailure       // any other exception
    | LibraryMissing     // ImportError: the events library is not installed

  /** The state the coordinator starts in: no failures, the configured interval. */
  function Initial(configured: int): Tracker {
    Tracker(0, configured)
  }

  /** Entities report unavailable once the counter has reached the threshold. */
  predicate IsUnavailable(t: Tracker) {
    t.consecutiveFailures >= MaxConsecutiveFailures
  }

  /** The state after one update attempt; `configured` is the interval in the config entry. */
  function Step(t: Tracker, o: Outcome, configured: int): (t': Tracker)
    ensures o == Fetched ==> t'.consecutiveFailures == 0
    ensures o == Fetched && t.consecutiveFailures > 0 ==> t'.updateInterval == configured
    ensures o == Fetched && t.consecutiveFailures == 0 ==> t' == t
    ensures o == NetworkFailure ==> t'.consecutiveFailures == t.consecutiveFailures + 1
    ensures o == NetworkFailure && t'.consecutiveFailures <= |RetryBackoffMinutes| ==>
              t'.updateInterval == RetryBackoffMinutes[t'.consecutiveFailures - 1]
    ensures o == NetworkFailure && t'.consecutiveFailures > |RetryBackoffMinutes| ==>
              t'.updateInterval == t.updateInterval
    ensures o == OtherFailure ==> t' == t.(consecutiveFailures := t.consecutiveFailures + 1)
    ensures o == LibraryMissing ==> t' == t
  {
    match o
    case Fetched =>
      if t.consecutiveFailures > 0 then Tracker(0, configured) else t.(consecutiveFailures := 0)
    case NetworkFailure =>
      var n := t.consecutiveFailures + 1;
      if n <= |RetryBackoffMinutes| then Tracker(n, RetryBackoffMinutes[n - 1]) else t.(consecutiveFailures := n)
    case OtherFailure =>
      t.(consecutiveFailures := t.consecutiveFailures + 1)
    case LibraryMissing =>
      t
  }

  /** The state after a sequence of update attempts, first to last. */
  function Run(t: Tracker, os: seq<Outcome>, configured: int): Tracker
    decreases |os|
  {
    if os == [] then t else Run(Step(t, os[0], configured), os[1..], configured)
  }

  /** Attempts that count as failures: every outcome but a success or a missing library. */
  function CountedFailures(os: seq<Outcome>): nat
    decreases |os|
  {
    if os == [] then 0
    else (if os[0] == NetworkFailure || os[0] == OtherFailure then 1 else 0) + CountedFailures(os[1..])
  }

  /** The retry delay after the `n`-th consecutive network failure: 15, 30, then 60 minutes from the third on. */
  function BackoffDelay(n: nat): int
    requires n >= 1
  {
    RetryBackoffMinutes[(if n < |RetryBackoffMinutes| then n else |RetryBackoffMinutes|) - 1]
  }

  /** The states reachable from `Initial(configured)`: the interval is the configured one or a backoff entry, and it is the configured one whenever the counter is zero. */
  predicate Reachable(t: Tracker, configured: int) {
    && (t.updateInterval == configured || t.updateInterval in RetryBackoffMinutes)
    && (t.consecutiveFailures == 0 ==> t.updateInterval == configured)
  }

  // ---------------------------------------------------------------------------
  // Lemmas
  // ---------------------------------------------------------------------------

  /** Without a success the counter grows by exactly the number of counted failures; a missing library leaves it alone. */
  lemma {:induction false} RunWithoutSuccess(t: Tracker, os: seq<Outcome>, configured: int)
    requires Fetched !in os
    ensures Run(t, os, configured).consecutiveFailures == t.consecutiveFailures + CountedFailures(os)
    decreases |os|
  {
    if os != [] {
      assert os == [os[0]] + os[1..];
      RunWithoutSuccess(Step(t, os[0], configured), os[1..], configured);
    }
  }

  /** Three or more failures in a row, of any counted kind, make the entities unavailable. */
  lemma UnavailableAfterThreeFailures(t: Tracker, os: seq<Outcome>, configured: int)
    requires Fetched !in os
    requires CountedFailures(os) >= MaxConsecutiveFailures
    ensures IsUnavailable(Run(t, os, configured))
  {
    RunWithoutSuccess(t, os, configured);
  }

  /** `k` network failures in a row after a success set the interval to 15, 30, then 60 minutes, where it stays. */
  lemma {:induction false} NetworkStreak(t: Tracker, k: nat, configured: int)
    requires t.consecutiveFailures == 0
    requires k >= 1
    ensures Run(t, seq(k, _ => NetworkFailure), configured) == Tracker(k, BackoffDelay(k))
    decreases k
  {
    var os := seq(k, _ => NetworkFailure);
    if k == 1 {
      assert os[1..] == [];
    } else {
      var prefix := seq(k - 1, _ => NetworkFailure);
      NetworkStreak(t, k - 1, configured);
      RunSnoc(t, prefix, NetworkFailure, configured);
      assert os == prefix + [NetworkFailure];
    }
  }

  lemma {:induction false} RunSnoc(t: Tracker, os: seq<Outcome>, o: Outcome, configured: int)
    ensures Run(t, os + [o], configured) == Step(Run(t, os, configured), o, configured)
    decreases |os|
  {
    if os == [] {
      assert [o][1..] == [];
    } else {
      assert (os + [o])[1..] == os[1..] + [o];
      RunSnoc(Step(t, os[0], configured), os[1..], o, configured);
    }
  }

  /** A success always clears the counter and so makes the entities available again. */
  lemma SuccessRecovers(t: Tracker, configured: int)
    ensures Step(t, Fetched, configured).consecutiveFailures == 0
    ensures !IsUnavailable(Step(t, Fetched, configured))
  {
  }

  /** Every attempt keeps the coordinator within its reachable states. */
  lemma StepReachable(t: Tracker, o: Outcome, configured: int)
    requires Reachable(t, configured)
    ensures Reachable(Step(t, o, configured), configured)
  {
  }

  /**
   From any reachable state a success leaves the configured interval in place:
   the interval is only restored when the counter was positive, but a zero
   counter already implies the configured interval.
   */
  lemma {:induction false} SuccessRestoresInterval(os: seq<Outcome>, configured: int)
    ensures Reachable(Run(Initial(configured), os, configured), configured)
    ensures Step(Run(Initial(configured), os, configured), Fetched, configured)
         == Tracker(0, configured)
  {
    RunReachable(Initial(configured), os, configured);
  }

  lemma {:induction false} RunReachable(t: Tracker, os: seq<Outcome>, configured: int)
    requires Reachable(t, configured)
    ensures Reachable(Run(t, os, configured), configured)
    decreases |os|
  {
    if os != [] {
      StepReachable(t, os[0], configured);
      RunReachable(Step(t, os[0], configured), os[1..], configured);
    }
  }
}
