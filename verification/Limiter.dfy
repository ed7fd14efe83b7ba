/** The hourly limiter of frame-spike reports (`src/gate.rs`). */
module Limiter {

  const PER_HOUR: nat := 200
  const WINDOW_MS: nat := 3_600_000

  datatype Window = Window(start: nat, count: nat)

  predicate Opens(now: nat, w: Window) { w.start == 0 || now - w.start >= WINDOW_MS }

  /** `frame_spike_admit`: whether the event passes, and the window after it.  The clock
      never runs back, so the saturating subtraction of the source is a plain one. */
  function Admit(now: nat, w: Window): (bool, Window) {
    if Opens(now, w) then (true, Window(now, 1))
    else if w.count >= PER_HOUR then (false, w)
    else (true, w.(count := w.count + 1))
  }

  function After(times: seq<nat>): Window {
    if times == [] then Window(0, 0)
    else Admit(times[|times| - 1], After(times[..|times| - 1])).1
  }

  predicate Passes(times: seq<nat>, i: nat)
    requires i < |times|
  {
    Admit(times[i], After(times[..i])).0
  }

  /** How many of the events `i..j` pass, and how many of them open a window. */
  function Passed(times: seq<nat>, i: nat, j: nat): nat
    requires i <= j <= |times|
  {
    if i == j then 0 else Passed(times, i, j - 1) + if Passes(times, j - 1) then 1 else 0
  }

  function Opened(times: seq<nat>, i: nat, j: nat): nat
    requires i <= j <= |times|
  {
    if i == j then 0 else Opened(times, i, j - 1) + if Opens(times[j - 1], After(times[..j - 1])) then 1 else 0
  }

  ghost predicate Ticking(times: seq<nat>) {
    (forall i :: 0 <= i < |times| ==> 0 < times[i])
    && forall i, j :: 0 <= i <= j < |times| ==> times[i] <= times[j]
  }

  lemma StepAfter(times: seq<nat>, j: nat)
    requires j < |times|
    ensures After(times[..j + 1]) == Admit(times[j], After(times[..j])).1
  {
    assert times[..j + 1][..j] == times[..j];
  }

  /** Every window opens with an event, and never holds more than the limit. */
  lemma {:induction false} WindowHolds(times: seq<nat>, j: nat)
    requires Ticking(times) && j <= |times|
    ensures var w := After(times[..j]);
            && w.count <= PER_HOUR
            && (j > 0 ==> 0 < w.start <= times[j - 1] && 0 < w.count)
            && (j == 0 ==> w == Window(0, 0))
  {
    if j > 0 {
      WindowHolds(times, j - 1);
      StepAfter(times, j - 1);
    }
  }

  /** What passes is paid for by room in the first window or by an opening. */
  lemma {:induction false} PassedIsPaid(times: seq<nat>, i: nat, j: nat)
    requires Ticking(times) && i <= j <= |times|
    ensures Passed(times, i, j) + After(times[..i]).count
         <= After(times[..j]).count + PER_HOUR * Opened(times, i, j)
    ensures Opened(times, i, j) == 0 ==> After(times[..j]).start == After(times[..i]).start
    ensures Opened(times, i, j) > 0 ==> times[i] <= After(times[..j]).start
    decreases j
  {
    hide After;
    if i < j {
      PassedIsPaid(times, i, j - 1);
      StepAfter(times, j - 1);
      WindowHolds(times, j - 1);
    }
  }

  /** Two openings are a whole window apart. */
  lemma {:induction false} OpeningsApart(times: seq<nat>, i: nat, j: nat)
    requires Ticking(times) && i < j <= |times|
    requires times[j - 1] - times[i] < WINDOW_MS
    ensures Opened(times, i, j) <= 1
    decreases j
  {
    hide After;
    if i < j - 1 {
      OpeningsApart(times, i, j - 1);
      PassedIsPaid(times, i, j - 1);
    }
  }

  lemma {:induction false} FirstThenRest(times: seq<nat>, i: nat, j: nat)
    requires i < j <= |times|
    ensures Passed(times, i, j) == Passed(times, i, i + 1) + Passed(times, i + 1, j)
    decreases j
  {
    if i + 1 < j {
      FirstThenRest(times, i, j - 1);
    }
  }

  /** Within one window - from the event that opens it, or any later one, up to the next
      opening - at most 200 events pass. */
  lemma AtMostOneLimitPerWindow(times: seq<nat>, i: nat, j: nat)
    requires Ticking(times) && i < j <= |times| && Opened(times, i + 1, j) == 0
    ensures Passed(times, i, j) <= PER_HOUR
  {
    FirstThenRest(times, i, j);
    PassedIsPaid(times, i + 1, j);
    WindowHolds(times, i);
    WindowHolds(times, j);
    StepAfter(times, i);
  }

  /** In any span shorter than an hour, whatever the calls, at most 400 events pass. */
  lemma AtMostTwoLimitsPerSpan(times: seq<nat>, i: nat, j: nat)
    requires Ticking(times) && i < j <= |times| && times[j - 1] - times[i] < WINDOW_MS
    ensures Passed(times, i, j) <= 2 * PER_HOUR
  {
    OpeningsApart(times, i, j);
    PassedIsPaid(times, i, j);
    WindowHolds(times, j);
  }

  /** A full window stays shut: nothing passes while its hour lasts. */
  lemma {:induction false} FullStaysShut(times: seq<nat>, j: nat, k: nat)
    requires Ticking(times) && j <= k <= |times| && After(times[..j]).count == PER_HOUR
    requires forall i :: j <= i < k ==> times[i] < After(times[..j]).start + WINDOW_MS
    ensures Passed(times, j, k) == 0 && After(times[..k]) == After(times[..j])
    decreases k
  {
    hide After;
    WindowHolds(times, j);
    if j < k {
      FullStaysShut(times, j, k - 1);
      StepAfter(times, k - 1);
    }
  }

  // ---- exactly what passes ----

  /** Event `k` begins a window in which event `j` still lies, or ends. */
  ghost predicate OpenedAt(times: seq<nat>, k: nat, j: nat)
    requires j <= |times|
  {
    k < j && Opens(times[k], After(times[..k])) && forall i :: k < i < j ==> !Opens(times[i], After(times[..i]))
  }

  lemma {:induction false} WindowOf(times: seq<nat>, j: nat) returns (k: nat)
    requires Ticking(times) && 0 < j <= |times|
    ensures OpenedAt(times, k, j)
    ensures After(times[..j]).start == times[k] && After(times[..j]).count == Passed(times, k, j)
    decreases j
  {
    hide After;
    WindowHolds(times, j - 1);
    StepAfter(times, j - 1);
    if Opens(times[j - 1], After(times[..j - 1])) {
      k := j - 1;
      assert Passed(times, k, k) == 0;
    } else {
      k := WindowOf(times, j - 1);
    }
  }

  /** The first event passes.  Any other passes if and only if the window before it, opened
      by event `k`, is an hour old, and then it opens the next one; or fewer than 200 have
      passed in it. */
  lemma PassesIff(times: seq<nat>, j: nat) returns (k: nat)
    requires Ticking(times) && j < |times|
    ensures j == 0 ==> Passes(times, j) && Opens(times[j], After(times[..j]))
    ensures j > 0 ==>
              && OpenedAt(times, k, j)
              && (Opens(times[j], After(times[..j])) <==> times[j] - times[k] >= WINDOW_MS)
              && (Passes(times, j) <==> times[j] - times[k] >= WINDOW_MS || Passed(times, k, j) < PER_HOUR)
  {
    k := 0;
    if j > 0 {
      k := WindowOf(times, j);
      hide After;
    }
  }

  // ---- when time may start ----

  /** Calls from `t0` on, in time that never runs back. */
  ghost predicate From(times: seq<nat>, t0: nat) {
    && (forall i :: 0 <= i < |times| ==> t0 <= times[i])
    && forall i, j :: 0 <= i <= j < |times| ==> times[i] <= times[j]
  }

  /** The bound of two limits in every span shorter than an hour. */
  ghost predicate Bounded(times: seq<nat>) {
    forall i, j :: 0 <= i < j <= |times| && times[j - 1] - times[i] < WINDOW_MS ==> Passed(times, i, j) <= 2 * PER_HOUR
  }

  /** At time 0 everything passes. */
  lemma {:induction false} NoLimitAtZero(times: seq<nat>, j: nat)
    requires j <= |times| && forall i :: 0 <= i < |times| ==> times[i] == 0
    ensures Passed(times, 0, j) == j && After(times[..j]).start == 0
  {
    if j > 0 {
      NoLimitAtZero(times, j - 1);
      StepAfter(times, j - 1);
    }
  }

  /** The bound holds for every run of calls from `t0` on if and only if `t0` is positive. */
  lemma BoundedIffPositive(t0: nat)
    ensures (forall times: seq<nat> :: From(times, t0) ==> Bounded(times)) <==> t0 > 0
  {
    if t0 > 0 {
      forall times: seq<nat> | From(times, t0) ensures Bounded(times) {
        forall i, j | 0 <= i < j <= |times| && times[j - 1] - times[i] < WINDOW_MS
          ensures Passed(times, i, j) <= 2 * PER_HOUR
        {
          AtMostTwoLimitsPerSpan(times, i, j);
        }
      }
    } else {
      var times: seq<nat> := seq(2 * PER_HOUR + 1, _ => 0);
      NoLimitAtZero(times, |times|);
      assert From(times, 0) && !Bounded(times);
    }
  }
}
