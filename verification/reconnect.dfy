/**
 The reconnect loop of the price feed: a counter that is reset when a
 connection opens, incremented each time a connection attempt or an open
 connection ends while the loop is still running, stops the loop for good at
 five, and otherwise sets a linear back-off.
 */
module Reconnect {
  import opened Base

  const MAX_FAILURES: nat := 5
  const BACKOFF_STEP: nat := 60
  const BACKOFF_CAP: nat := 300

  /** How one pass through the loop went: did the socket open, and was `stop` called meanwhile. */
  datatype Attempt = Attempt(connected: bool, stopped: bool)

  /** What the loop does after a pass. */
  datatype Next = Exit | GiveUp | Sleep(seconds: nat)

  datatype LoopState = LoopState(running: bool, failures: nat)

  /** `min(60 * failures, 300)` seconds. */
  function Backoff(failures: nat): (r: nat)
    ensures failures <= 5 ==> r == BACKOFF_STEP * failures
    ensures failures >= 5 ==> r == BACKOFF_CAP
  {
    if BACKOFF_STEP * failures <= BACKOFF_CAP then BACKOFF_STEP * failures else BACKOFF_CAP
  }

  /** One pass of the `while self._running` loop, from the counter before it. */
  function Step(s: LoopState, a: Attempt): (r: (LoopState, Next))
    requires s.running
    ensures a.stopped ==> r.1 == Exit && !r.0.running
    ensures !a.stopped ==> r.0.failures == (if a.connected then 0 else s.failures) + 1
    ensures !a.stopped && r.0.failures >= MAX_FAILURES ==> r.1 == GiveUp && !r.0.running
    ensures !a.stopped && r.0.failures < MAX_FAILURES ==>
      r.0.running && r.1 == Sleep(BACKOFF_STEP * r.0.failures)
  {
    var reset := if a.connected then 0 else s.failures;
    if a.stopped then (LoopState(false, reset), Exit)
    else
      var failures := reset + 1;
      if failures >= MAX_FAILURES then (LoopState(false, failures), GiveUp)
      else (LoopState(true, failures), Sleep(Backoff(failures)))
  }

  /**
   Reference definition of the counter after the first `n` passes: the number
   of passes since, and including, the last one whose socket opened.
   */
  function Streak(attempts: seq<Attempt>, n: nat): nat
    requires n <= |attempts|
  {
    if n == 0 then 0
    else (if attempts[n - 1].connected then 0 else Streak(attempts, n - 1)) + 1
  }

  /**
   Runs the loop against a script of pass outcomes until it exits, gives up, or
   the script ends. Returns the sleeps taken, the passes used, and whether the
   feed was abandoned.
   */
  method Run(attempts: seq<Attempt>) returns (sleeps: seq<nat>, used: nat, gaveUp: bool)
    ensures used <= |attempts|
    ensures |sleeps| == (if used > 0 && (gaveUp || attempts[used - 1].stopped) then used - 1 else used)
    ensures forall k :: 0 <= k < |sleeps| ==> sleeps[k] == BACKOFF_STEP * Streak(attempts, k + 1)
    ensures forall k :: 0 <= k < |sleeps| ==> BACKOFF_STEP <= sleeps[k] <= 4 * BACKOFF_STEP
    ensures gaveUp ==> used > 0 && Streak(attempts, used) == MAX_FAILURES && !attempts[used - 1].stopped
    ensures forall k :: 0 < k < used ==> Streak(attempts, k) < MAX_FAILURES
    ensures forall j :: 0 <= j < used - 1 ==> !attempts[j].stopped
    ensures used < |attempts| ==> gaveUp || (used > 0 && attempts[used - 1].stopped)
  {
    var s := LoopState(true, 0);
    sleeps := [];
    used := 0;
    gaveUp := false;
    while s.running && used < |attempts|
      invariant used <= |attempts|
      invariant s.running ==> s.failures == Streak(attempts, used) && s.failures < MAX_FAILURES
      invariant s.running ==> |sleeps| == used && !gaveUp
      invariant s.running && used > 0 ==> !attempts[used - 1].stopped
      invariant !s.running ==> used > 0 && (gaveUp || attempts[used - 1].stopped) && |sleeps| == used - 1
      invariant gaveUp ==> used > 0 && Streak(attempts, used) == MAX_FAILURES && !attempts[used - 1].stopped
      invariant forall k :: 0 <= k < |sleeps| ==> sleeps[k] == BACKOFF_STEP * Streak(attempts, k + 1)
      invariant forall k :: 0 <= k < |sleeps| ==> BACKOFF_STEP <= sleeps[k] <= 4 * BACKOFF_STEP
      invariant forall k :: 0 < k < used ==> Streak(attempts, k) < MAX_FAILURES
      invariant forall j :: 0 <= j < used - 1 ==> !attempts[j].stopped
      decreases |attempts| - used
    {
      var a := attempts[used];
      var r := Step(s, a);
      s := r.0;
      used := used + 1;
      if r.1 == GiveUp {
        gaveUp := true;
      } else if r.1.Sleep? {
        sleeps := sleeps + [r.1.seconds];
      }
    }
  }

  /**
   `connect`: without an approval key the loop is never entered; with one it
   runs as `Run` does.
   */
  method Connect(approvalKey: Option<string>, attempts: seq<Attempt>) returns (sleeps: seq<nat>, used: nat, gaveUp: bool)
    ensures !Truthy(approvalKey) ==> sleeps == [] && used == 0 && !gaveUp
    ensures Truthy(approvalKey) && |attempts| > 0 ==> used > 0
    ensures used <= |attempts| && |sleeps| <= used
    ensures forall k :: 0 <= k < |sleeps| ==> sleeps[k] == BACKOFF_STEP * Streak(attempts, k + 1)
    ensures gaveUp ==> used > 0 && Streak(attempts, used) == MAX_FAILURES
  {
    if !Truthy(approvalKey) {
      return [], 0, false;
    }
    sleeps, used, gaveUp := Run(attempts);
  }

  /**
   Giving up needs the last four passes to have failed to open a socket: a
   connection that opened and later closed counts as the first of the five.
   */
  lemma {:induction false} GiveUpAfterFourFailedOpens(attempts: seq<Attempt>, n: nat)
    requires n <= |attempts| && Streak(attempts, n) >= MAX_FAILURES
    ensures n >= MAX_FAILURES
    ensures forall k :: n - 4 <= k < n ==> !attempts[k].connected
  {
    assert !attempts[n - 1].connected && Streak(attempts, n - 1) >= 4;
    assert !attempts[n - 2].connected && Streak(attempts, n - 2) >= 3;
    assert !attempts[n - 3].connected && Streak(attempts, n - 3) >= 2;
    assert !attempts[n - 4].connected && Streak(attempts, n - 4) >= 1;
  }

  /** An opened connection resets the count: after it, giving up takes at least four more passes. */
  lemma {:induction false} OpenResetsCount(attempts: seq<Attempt>, n: nat)
    requires 0 < n <= |attempts| && attempts[n - 1].connected
    ensures Streak(attempts, n) == 1
  {
  }
}
