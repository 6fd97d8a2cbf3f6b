/** The fasting tracker (src/lib/fasting.ts): the start and end of the
    current fast, its duration, a short duration label and the milestone
    messages. The stored record becomes the field `state` of
    `FastingTracker`; ISO timestamps are millisecond numbers (the `Date`
    parsing of ISO strings is not part of this model) and `Date.now()` is
    the parameter `now`. */
module Fasting {
  import opened Seqs
  import opened Text
  import opened JsMath

  datatype FastingState = FastingState(startedAt: Option<int>, endedAt: Option<int>)

  /** `computeFastingDurationMs`: 0 before any start, otherwise the time
      from the start to the end (or to `now` while fasting), never negative. */
  function DurationMs(state: FastingState, now: int): (d: nat)
    ensures state.startedAt.None? ==> d == 0
    ensures state.startedAt.Some? ==>
              var end := if state.endedAt.Some? then state.endedAt.value else now;
              d >= end - state.startedAt.value && (d == 0 || d == end - state.startedAt.value)
  {
    if state.startedAt.None? then 0
    else
      var end := if state.endedAt.Some? then state.endedAt.value else now;
      if end - state.startedAt.value > 0 then end - state.startedAt.value else 0
  }

  /** A running fast only grows with the clock. */
  lemma DurationMonotone(state: FastingState, t1: int, t2: int)
    requires t1 <= t2
    ensures DurationMs(state, t1) <= DurationMs(state, t2)
  {
  }

  const HourMs: int := 3600000
  const DayMs: int := 86400000

  /** Whole hours and the minutes past them of a duration (`Math.floor` on
      the seconds, JavaScript's `%` for the minutes). */
  datatype Parts = Parts(days: int, hours: int, minutes: int)

  function PartsOf(ms: int): (p: Parts)
    ensures p.days == p.hours / 24
    ensures ms >= 0 ==> 0 <= p.minutes < 60 && p.hours >= 0
    ensures ms >= 0 ==> p.hours * 60 + p.minutes == ms / 60000
    ensures ms >= 0 ==> p.hours == ms / HourMs && p.days == ms / DayMs
  {
    var totalSeconds := ms / 1000;
    var hours := totalSeconds / 3600;
    var minutes := JsRem(totalSeconds, 3600) / 60;
    Parts(hours / 24, hours, minutes)
  }

  /** `formatDuration`: "Xd Yh" from a day on, "Hh Mm" from an hour on,
      "Mm" below an hour; the hours after whole days are below 24. */
  function FormatDuration(ms: int): (r: string)
    ensures var p := PartsOf(ms);
            ms >= 0 ==>
              r == if ms >= DayMs then NatToDecimal(p.days) + "d " + NatToDecimal(p.hours % 24) + "h"
                   else if ms >= HourMs then NatToDecimal(p.hours) + "h " + NatToDecimal(p.minutes) + "m"
                   else NatToDecimal(p.minutes) + "m"
    ensures ms >= 0 ==> PartsOf(ms).hours % 24 < 24 && PartsOf(ms).days * 24 + PartsOf(ms).hours % 24 == PartsOf(ms).hours
    ensures 0 <= ms < HourMs ==> r == NatToDecimal(ms / 60000) + "m"
  {
    var p := PartsOf(ms);
    if p.days > 0 then IntToDecimal(p.days) + "d " + IntToDecimal(p.hours % 24) + "h"
    else if p.hours > 0 then IntToDecimal(p.hours) + "h " + IntToDecimal(p.minutes) + "m"
    else IntToDecimal(p.minutes) + "m"
  }

  /** Milestone thresholds in hours, in ascending order, and their messages. */
  const Thresholds: seq<real> := [8.0, 12.0, 16.0, 20.0]
  const Messages: seq<string> := [
    "Glycogen stores are being used for energy",
    "Insulin levels are falling; fat burning is increasing",
    "Autophagy is starting to ramp up",
    "Growth hormone and repair processes are elevated"
  ]
  const EarlyFast: string := "Early fast: you\U{2019}re clearing recent meals and stabilizing blood sugar."

  function Hours(ms: int): real {
    ms as real / 3600000.0
  }

  /** How many thresholds `hours` has reached. */
  function Passed(hours: real): (k: nat)
    ensures k <= 4
    ensures forall i :: 0 <= i < k ==> hours >= Thresholds[i]
    ensures forall i :: k <= i < 4 ==> hours < Thresholds[i]
  {
    if hours >= 20.0 then 4 else if hours >= 16.0 then 3 else if hours >= 12.0 then 2 else if hours >= 8.0 then 1 else 0
  }

  /** The milestone list: one message per threshold reached, in threshold
      order, or the early-fast message when none is. */
  function Milestones(ms: int): (r: seq<string>)
    ensures |r| >= 1
    ensures Hours(ms) < 8.0 ==> r == [EarlyFast]
    ensures Hours(ms) >= 8.0 ==> r == Messages[..Passed(Hours(ms))]
  {
    var k := Passed(Hours(ms));
    if k == 0 then [EarlyFast] else Messages[..k]
  }

  /** `fastingMilestones`, pushing onto a list threshold by threshold. */
  method FastingMilestones(ms: int) returns (out: seq<string>)
    ensures out == Milestones(ms)
  {
    var hours := ms as real / (1000.0 * 60.0 * 60.0);
    out := [];
    if hours >= 8.0 { out := out + ["Glycogen stores are being used for energy"]; }
    if hours >= 12.0 { out := out + ["Insulin levels are falling; fat burning is increasing"]; }
    if hours >= 16.0 { out := out + ["Autophagy is starting to ramp up"]; }
    if hours >= 20.0 { out := out + ["Growth hormone and repair processes are elevated"]; }
    if |out| == 0 {
      out := out + [EarlyFast];
    }
  }

  /** Past eight hours, a longer fast's milestones extend a shorter one's. */
  lemma MilestonesPrefix(ms1: int, ms2: int)
    requires HourMs * 8 <= ms1 <= ms2
    ensures Milestones(ms1) <= Milestones(ms2)
  {
    assert Hours(ms1) <= Hours(ms2);
    assert Hours(ms1) >= 8.0;
  }

  class FastingTracker {
    var state: FastingState

    constructor ()
      ensures state == FastingState(None, None)
    {
      state := FastingState(None, None);
    }

    /** `startFast`: a new start with no end. */
    method StartFast(start: int)
      modifies this
      ensures state == FastingState(Some(start), None)
      ensures DurationMs(state, start) == 0
    {
      state := FastingState(Some(start), None);
    }

    /** `endFast`: records the end (replacing an earlier one) of a started
        fast; nothing happens when no fast has started. */
    method EndFast(end: int)
      modifies this
      ensures old(state).startedAt.None? ==> state == old(state)
      ensures old(state).startedAt.Some? ==> state == old(state).(endedAt := Some(end))
      ensures forall now :: DurationMs(state, now) == DurationMs(state, end)
    {
      if state.startedAt.None? {
        return;
      }
      state := state.(endedAt := Some(end));
    }
  }
}
