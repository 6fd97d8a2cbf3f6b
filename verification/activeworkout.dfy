/** The active-workout stopwatch (src/providers/ActiveWorkoutProvider.tsx):
    the chosen template, whether the clock runs, when it last (re)started
    and the time banked from earlier runs. The React state becomes the
    field `active` of `Stopwatch`; `Date.now()` is the parameter `now`;
    the persistence effect is not part of this model. */
module ActiveWorkout {
  import opened Seqs
  import opened JsMath

  datatype Workout = Workout(templateId: Option<string>, isRunning: bool,
                             startedAt: Option<real>, elapsedBeforeMs: real)

  /** The blank record: no template, stopped, never started, nothing banked. */
  const Blank: Workout := Workout(None, false, None, 0.0)

  /** A JSON value read back from storage, as far as `normalize` looks at it.
      `Str` and `Other` carry what `Number()` makes of them (`None` for NaN
      or an infinity), since JavaScript's numeric string parsing is not part
      of this model. */
  datatype Raw =
    | Undefined
    | Null
    | Bool(b: bool)
    | Num(x: real)
    | NonFinite
    | Str(s: string, asNumber: Option<real>)
    | Other(asNumber: Option<real>)

  datatype RawWorkout = RawWorkout(templateId: Raw, isRunning: Raw, startedAt: Raw, elapsedBeforeMs: Raw)

  /** `Number(v)` when it is finite, `None` otherwise: `Number(null)` is 0,
      `Number(true)` is 1, `Number(undefined)` is NaN. */
  function FiniteNumber(v: Raw): (r: Option<real>)
    ensures v.Num? ==> r == Some(v.x)
    ensures v.Undefined? || v.NonFinite? ==> r.None?
  {
    match v
    case Undefined => None
    case Null => Some(0.0)
    case Bool(b) => Some(if b then 1.0 else 0.0)
    case Num(x) => Some(x)
    case NonFinite => None
    case Str(_, n) => n
    case Other(n) => n
  }

  /** `numOrZero`. */
  function NumOrZero(v: Raw): (r: real)
    ensures FiniteNumber(v).None? ==> r == 0.0
    ensures FiniteNumber(v).Some? ==> r == FiniteNumber(v).value
  {
    match FiniteNumber(v)
    case Some(x) => x
    case None => 0.0
  }

  /** `normalize` as written: a non-empty string or nothing for the
      template, a boolean defaulting to false, and finite numbers. Because
      `Number(null)` is 0, a stored `startedAt: null` reads back as 0. */
  function Normalize(raw: RawWorkout): (w: Workout)
    ensures w.templateId.Some? <==> raw.templateId.Str? && |raw.templateId.s| > 0
    ensures w.templateId.Some? ==> |w.templateId.value| > 0 && w.templateId.value == raw.templateId.s
    ensures w.isRunning <==> raw.isRunning == Bool(true)
    ensures w.startedAt == FiniteNumber(raw.startedAt)
    ensures w.elapsedBeforeMs == NumOrZero(raw.elapsedBeforeMs)
    ensures raw.elapsedBeforeMs.Num? ==> w.elapsedBeforeMs == raw.elapsedBeforeMs.x
  {
    Workout(if raw.templateId.Str? && |raw.templateId.s| > 0 then Some(raw.templateId.s) else None,
            raw.isRunning.Bool? && raw.isRunning.b,
            FiniteNumber(raw.startedAt),
            NumOrZero(raw.elapsedBeforeMs))
  }

  /** The stored form of a workout: what `JSON.stringify` writes for it. */
  function Stored(w: Workout): RawWorkout {
    RawWorkout(if w.templateId.Some? then Str(w.templateId.value, None) else Null,
               Bool(w.isRunning),
               if w.startedAt.Some? then Num(w.startedAt.value) else Null,
               Num(w.elapsedBeforeMs))
  }

  /** Reading back the stored blank record does not give the blank record:
      `startedAt` comes back as 0. */
  lemma NormalizeBlankAsWritten()
    ensures Normalize(Stored(Blank)).startedAt == Some(0.0)
    ensures Normalize(Stored(Blank)) != Blank
  {
  }

  /** `numOrNull` as its name says: null stays null. */
  function NumOrNull(v: Raw): (r: Option<real>)
    ensures v.Null? ==> r.None?
    ensures !v.Null? ==> r == FiniteNumber(v)
  {
    if v.Null? then None else FiniteNumber(v)
  }

  /** `normalize` with `startedAt` read by `NumOrNull`. */
  function NormalizeFixed(raw: RawWorkout): (w: Workout)
    ensures w.startedAt == NumOrNull(raw.startedAt)
    ensures w.templateId == Normalize(raw).templateId && w.isRunning == Normalize(raw).isRunning
    ensures w.elapsedBeforeMs == Normalize(raw).elapsedBeforeMs
  {
    Normalize(raw).(startedAt := NumOrNull(raw.startedAt))
  }

  /** Storing and reading back gives the same workout, provided the
      template id is non-empty (an empty id reads back as none). */
  lemma NormalizeFixedRoundTrip(w: Workout)
    requires w.templateId.Some? ==> |w.templateId.value| > 0
    ensures NormalizeFixed(Stored(w)) == w
  {
  }

  /** `computeElapsed`: the banked time, plus the time since the last
      (re)start while running, never negative. */
  function ComputeElapsed(a: Workout, now: real): (e: real)
    ensures a.isRunning && a.startedAt.Some? ==> e == a.elapsedBeforeMs + Max(0.0, now - a.startedAt.value)
    ensures !(a.isRunning && a.startedAt.Some?) ==> e == a.elapsedBeforeMs
    ensures e >= a.elapsedBeforeMs
  {
    if a.isRunning && a.startedAt.Some? then a.elapsedBeforeMs + Max(0.0, now - a.startedAt.value)
    else a.elapsedBeforeMs
  }

  /** The elapsed time never runs backwards. */
  lemma ElapsedMonotone(a: Workout, t1: real, t2: real)
    requires t1 <= t2
    ensures ComputeElapsed(a, t1) <= ComputeElapsed(a, t2)
  {
  }

  /** What every transition keeps: nothing banked is negative, and the
      clock has a start time exactly while it runs. */
  predicate Consistent(a: Workout) {
    a.elapsedBeforeMs >= 0.0 && (a.isRunning <==> a.startedAt.Some?)
  }

  class Stopwatch {
    var active: Workout

    /** The initial state: the blank record. */
    constructor ()
      ensures active == Blank && Consistent(active)
    {
      active := Blank;
    }

    function ElapsedMs(now: real): (e: real)
      reads this
      ensures Consistent(active) ==> e >= 0.0
    {
      ComputeElapsed(active, now)
    }

    /** `selectTemplate`: chosen but stopped; the banked time survives only
        when the same template is chosen again. */
    method SelectTemplate(templateId: string)
      modifies this
      ensures active == Workout(Some(templateId), false, None,
                                if old(active).templateId == Some(templateId) then old(active).elapsedBeforeMs else 0.0)
      ensures old(Consistent(active)) ==> Consistent(active)
    {
      var keep := if active.templateId == Some(templateId) then active.elapsedBeforeMs else 0.0;
      active := Workout(Some(templateId), false, None, keep);
    }

    /** `start`: chosen and running from `now`; the banked time survives
        only for the same template. */
    method Start(templateId: string, now: real)
      modifies this
      ensures active == Workout(Some(templateId), true, Some(now),
                                if old(active).templateId == Some(templateId) then old(active).elapsedBeforeMs else 0.0)
      ensures old(Consistent(active)) ==> Consistent(active)
      ensures ElapsedMs(now) == active.elapsedBeforeMs
    {
      var keep := if active.templateId == Some(templateId) then active.elapsedBeforeMs else 0.0;
      active := Workout(Some(templateId), true, Some(now), keep);
    }

    /** `pause`: banks the time since the last (re)start and stops; a no-op
        unless running with a start time. The elapsed time at `now` is the
        same before and after. */
    method Pause(now: real)
      modifies this
      ensures !(old(active).isRunning && old(active).startedAt.Some?) ==> active == old(active)
      ensures old(active).isRunning && old(active).startedAt.Some? ==>
                active == old(active).(isRunning := false, startedAt := None,
                                       elapsedBeforeMs := old(active).elapsedBeforeMs + Max(0.0, now - old(active).startedAt.value))
      ensures ElapsedMs(now) == old(ElapsedMs(now))
      ensures old(Consistent(active)) ==> Consistent(active)
    {
      if !active.isRunning || active.startedAt.None? {
        return;
      }
      var add := now - active.startedAt.value;
      active := active.(isRunning := false, startedAt := None,
                        elapsedBeforeMs := active.elapsedBeforeMs + Max(0.0, add));
    }

    /** `resume`: running again from `now` with the banked time kept; a
        no-op with no (or an empty) template or when already running. */
    method Resume(now: real)
      modifies this
      ensures old(active).templateId.None? || old(active).templateId == Some("") || old(active).isRunning ==>
                active == old(active)
      ensures !(old(active).templateId.None? || old(active).templateId == Some("") || old(active).isRunning) ==>
                active == old(active).(isRunning := true, startedAt := Some(now))
      ensures ElapsedMs(now) == old(ElapsedMs(now))
      ensures old(Consistent(active)) ==> Consistent(active)
    {
      if active.templateId.None? || active.templateId.value == "" || active.isRunning {
        return;
      }
      active := active.(isRunning := true, startedAt := Some(now));
    }

    /** `end`: back to the blank record. */
    method End()
      modifies this
      ensures active == Blank && Consistent(active)
    {
      active := Blank;
    }
  }
}
