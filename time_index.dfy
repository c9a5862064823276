/**
 * The two rules that turn a requested time into a time-step index: the slice reader's
 * `get_time_index` (first step not below the requested time) and the full reader's
 * `GetTimeIndex` (an equality scan over the steps after the first).
 */
module TimeIndex {
  import opened Basics

  /** The first index whose step is not below `time`; `|steps|` when every step is below it. */
  function FirstNotBelow(steps: seq<real>, time: real): (r: nat)
    ensures r <= |steps|
    ensures forall j :: 0 <= j < r ==> steps[j] < time
    ensures r < |steps| ==> time <= steps[r]
  {
    if steps == [] then 0
    else if time <= steps[0] then 0
    else 1 + FirstNotBelow(steps[1..], time)
  }

  /**
   * The index `get_time_index` returns for the steps and the update time the
   * pipeline requests (None when it requests none).
   */
  function SliceIndexOf(steps: seq<real>, update: Option<real>): (r: nat)
    ensures update.None? || |steps| < 2 ==> r == 0
    ensures update.Some? && |steps| >= 2 ==> r == FirstNotBelow(steps, update.value)
  {
    if update.Some? && |steps| > 1 then FirstNotBelow(steps, update.value) else 0
  }

  /** `EAMSliceSource.get_time_index`: counts the leading steps below the requested time. */
  method SliceTimeIndex(steps: seq<real>, update: Option<real>) returns (idx: nat)
    ensures idx == SliceIndexOf(steps, update)
    ensures update.None? || |steps| < 2 ==> idx == 0
    ensures idx <= |steps|
    ensures update.Some? ==> forall j :: 0 <= j < idx ==> steps[j] < update.value
    ensures update.Some? && |steps| >= 2 && idx < |steps| ==> update.value <= steps[idx]
  {
    idx := 0;
    if update.Some? && |steps| > 1 {
      var time := update.value;
      var i := 0;
      while i < |steps|
        invariant 0 <= i <= |steps| && idx == i
        invariant forall j :: 0 <= j < i ==> steps[j] < time
        invariant FirstNotBelow(steps, time) == i + FirstNotBelow(steps[i..], time)
      {
        if time <= steps[i] {
          break;
        }
        assert steps[i..][1..] == steps[i + 1..];
        idx := idx + 1;
        i := i + 1;
      }
    }
  }

  /** The index `GetTimeIndex` returns: j - 1 for the first j >= 1 with `steps[j] == time`, else `|steps| - 1`. */
  function LegacyIndexOf(steps: seq<real>, time: real): (r: nat)
    ensures |steps| < 2 ==> r == 0
    ensures |steps| >= 2 ==> r < |steps|
  {
    if |steps| > 1 then EqualScan(steps[1..], time) else 0
  }

  /** The number of leading elements different from `time`. */
  function EqualScan(rest: seq<real>, time: real): (r: nat)
    ensures r <= |rest|
    ensures forall j :: 0 <= j < r ==> rest[j] != time
    ensures r < |rest| ==> rest[r] == time
  {
    if rest == [] then 0
    else if rest[0] == time then 0
    else 1 + EqualScan(rest[1..], time)
  }

  /** `EAMSource.GetTimeIndex`, over the steps after the first. */
  method LegacyTimeIndex(steps: seq<real>, time: real) returns (idx: nat)
    ensures idx == LegacyIndexOf(steps, time)
    ensures |steps| < 2 ==> idx == 0
    ensures |steps| >= 2 ==> idx <= |steps| - 1
    ensures forall j :: 1 <= j <= idx && j < |steps| ==> steps[j] != time
    ensures idx + 1 < |steps| ==> steps[idx + 1] == time
  {
    idx := 0;
    if |steps| > 1 {
      var rest := steps[1..];
      var i := 0;
      while i < |rest|
        invariant 0 <= i <= |rest| && idx == i
        invariant forall j :: 0 <= j < i ==> rest[j] != time
        invariant EqualScan(rest, time) == i + EqualScan(rest[i..], time)
      {
        if time == rest[i] {
          break;
        }
        assert rest[i..][1..] == rest[i + 1..];
        idx := idx + 1;
        i := i + 1;
      }
      assert forall j :: 1 <= j <= idx && j < |steps| ==> steps[j] == rest[j - 1];
    }
  }

  predicate StrictlyIncreasing(steps: seq<real>)
  {
    forall i, j :: 0 <= i < j < |steps| ==> steps[i] < steps[j]
  }

  /** On strictly increasing steps, requesting step j yields j from the slice rule. */
  lemma SliceIndexExact(steps: seq<real>, j: nat)
    requires StrictlyIncreasing(steps) && j < |steps|
    ensures FirstNotBelow(steps, steps[j]) == j
  {
  }

  /** A time past the last step yields `|steps|`: the slice rule does not saturate. */
  lemma SliceIndexPastEnd(steps: seq<real>, time: real)
    requires forall j :: 0 <= j < |steps| ==> steps[j] < time
    ensures FirstNotBelow(steps, time) == |steps|
  {
  }

  /**
   * On strictly increasing steps the two rules disagree: for j >= 1 the full reader
   * answers j - 1 where the slice reader answers j, and for the first step it answers
   * the last index.
   */
  lemma LegacyIndexOffByOne(steps: seq<real>, j: nat)
    requires StrictlyIncreasing(steps) && |steps| >= 2 && j < |steps|
    ensures j >= 1 ==> LegacyIndexOf(steps, steps[j]) == j - 1 && SliceIndexOf(steps, Some(steps[j])) == j
    ensures j == 0 ==> LegacyIndexOf(steps, steps[j]) == |steps| - 1 && SliceIndexOf(steps, Some(steps[j])) == 0
  {
    SliceIndexExact(steps, j);
  }
}
