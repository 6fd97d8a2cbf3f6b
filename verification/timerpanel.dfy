/** The stopwatch / countdown / tabata timer (src/components/TimerPanel.tsx).
    The React state variables become the fields of `Timer`; the one-second
    interval is the method `Tick`, and the effect that reacts to a changed
    second count is the method `Settle`. The rendering is not part of this
    model. */
module TimerPanel {
  import opened Seqs
  import opened Text

  datatype Mode = Stopwatch | Countdown | Tabata
  datatype Phase = Work | Rest

  /** `formatMmSs`: a negative count shows as "00:00"; otherwise minutes
      (at least two digits, never cut) and seconds below 60. */
  function FormatMmSs(totalSeconds: int): (r: string)
    ensures ShowsSeconds(r, if totalSeconds < 0 then 0 else totalSeconds)
  {
    MmSs(if totalSeconds < 0 then 0 else totalSeconds)
  }

  /** A count of zero or below shows as "00:00". */
  lemma FormatMmSsNonPositive(totalSeconds: int)
    requires totalSeconds <= 0
    ensures FormatMmSs(totalSeconds) == "00:00"
  {
    MmSsZero();
  }

  /** `Number(v) || fallback` on a parsed entry, `None` standing for the
      NaN of text that is not a number: the falsy entries, 0 and NaN, fall
      back to the default, every other entry is kept. */
  function OrDefault(v: Option<int>, fallback: int): (r: int)
    ensures v.Some? && v.value != 0 ==> r == v.value
    ensures v == Some(0) || v.None? ==> r == fallback
    ensures fallback != 0 ==> r != 0
  {
    if v.None? || v.value == 0 then fallback else v.value
  }

  class Timer {
    var mode: Mode
    var running: bool
    var seconds: int
    var countdownMinutes: int
    var workSec: int
    var restSec: int
    var rounds: int
    var round: int
    var phase: Phase

    /** The round counter starts at 1 and never drops below it; the second
        counter is never negative. */
    predicate Valid()
      reads this
    {
      round >= 1 && seconds >= 0
    }

    /** The initial state: a stopped stopwatch at 0, a 5-minute countdown,
        tabata 20 s work / 10 s rest for 8 rounds, round 1, working. */
    constructor ()
      ensures Valid()
      ensures mode == Stopwatch && !running && seconds == 0
      ensures countdownMinutes == 5 && workSec == 20 && restSec == 10 && rounds == 8
      ensures round == 1 && phase == Work
    {
      mode := Stopwatch;
      running := false;
      seconds := 0;
      countdownMinutes := 5;
      workSec := 20;
      restSec := 10;
      rounds := 8;
      round := 1;
      phase := Work;
    }

    /** The value on the dial: the time left for a countdown (never
        negative), the running count otherwise. */
    function DisplaySeconds(): (d: int)
      reads this
      ensures Valid() ==> d >= 0
      ensures mode == Countdown ==> d >= 0 && (d == 0 <==> seconds >= countdownMinutes * 60)
      ensures mode == Countdown ==> d + seconds >= countdownMinutes * 60
      ensures mode != Countdown ==> d == seconds
    {
      if mode == Countdown then
        (if countdownMinutes * 60 - seconds > 0 then countdownMinutes * 60 - seconds else 0)
      else seconds
    }

    /** One interval tick: a second more while running. */
    method Tick()
      modifies this
      ensures seconds == if old(running) then old(seconds) + 1 else old(seconds)
      ensures running == old(running) && mode == old(mode) && round == old(round) && phase == old(phase)
      ensures countdownMinutes == old(countdownMinutes) && workSec == old(workSec)
      ensures restSec == old(restSec) && rounds == old(rounds)
      ensures old(Valid()) ==> Valid()
    {
      if running {
        seconds := seconds + 1;
      }
    }

    /** The countdown/tabata effect after the count changed. A countdown
        stops once the count reaches its total. In tabata mode, reaching
        the phase limit restarts the count: work moves to rest in the same
        round; rest stops the timer after the last round and otherwise
        begins the next round's work. */
    method Settle()
      modifies this
      ensures mode == old(mode) && countdownMinutes == old(countdownMinutes)
      ensures workSec == old(workSec) && restSec == old(restSec) && rounds == old(rounds)
      ensures !old(running) || old(mode) == Stopwatch ==>
                running == old(running) && seconds == old(seconds) && round == old(round) && phase == old(phase)
      ensures old(running) && mode == Countdown ==>
                round == old(round) && phase == old(phase) && seconds == old(seconds)
                && (running <==> old(seconds) < countdownMinutes * 60)
      ensures old(running) && mode == Tabata ==>
                var limit := if old(phase) == Work then workSec else restSec;
                if old(seconds) < limit then
                  running && seconds == old(seconds) && round == old(round) && phase == old(phase)
                else
                  && seconds == 0
                  && (old(phase) == Work ==> phase == Rest && round == old(round) && running)
                  && (old(phase) == Rest && old(round) >= rounds ==> !running && phase == Rest && round == old(round))
                  && (old(phase) == Rest && old(round) < rounds ==> running && phase == Work && round == old(round) + 1)
      ensures round == old(round) || (round == old(round) + 1 && round <= rounds)
      ensures old(Valid()) ==> Valid()
    {
      if !running {
        return;
      }
      if mode == Countdown {
        var total := countdownMinutes * 60;
        if seconds >= total {
          running := false;
        }
      }
      if mode == Tabata {
        var phaseLimit := if phase == Work then workSec else restSec;
        if seconds >= phaseLimit {
          seconds := 0;
          if phase == Work {
            phase := Rest;
          } else {
            if round >= rounds {
              running := false;
            } else {
              round := round + 1;
              phase := Work;
            }
          }
        }
      }
    }

    /** `handleStart`. */
    method Start()
      modifies this
      ensures running
      ensures mode == old(mode) && seconds == old(seconds) && round == old(round) && phase == old(phase)
      ensures countdownMinutes == old(countdownMinutes) && workSec == old(workSec)
      ensures restSec == old(restSec) && rounds == old(rounds)
    {
      running := true;
    }

    /** `handlePause`. */
    method Pause()
      modifies this
      ensures !running
      ensures mode == old(mode) && seconds == old(seconds) && round == old(round) && phase == old(phase)
      ensures countdownMinutes == old(countdownMinutes) && workSec == old(workSec)
      ensures restSec == old(restSec) && rounds == old(rounds)
    {
      running := false;
    }

    /** `handleReset`: stopped at 0, round 1, working; the mode and the
        settings are kept. */
    method Reset()
      modifies this
      ensures !running && seconds == 0 && round == 1 && phase == Work && Valid()
      ensures mode == old(mode) && countdownMinutes == old(countdownMinutes)
      ensures workSec == old(workSec) && restSec == old(restSec) && rounds == old(rounds)
    {
      running := false;
      seconds := 0;
      round := 1;
      phase := Work;
    }

    /** Changing the mode always resets first. */
    method SetMode(m: Mode)
      modifies this
      ensures mode == m && !running && seconds == 0 && round == 1 && phase == Work && Valid()
      ensures countdownMinutes == old(countdownMinutes)
      ensures workSec == old(workSec) && restSec == old(restSec) && rounds == old(rounds)
    {
      Reset();
      mode := m;
    }

    /** The settings inputs: a zero or non-numeric entry falls back to
        1 minute, 20 s work, 10 s rest and 8 rounds. */
    method SetCountdownMinutes(v: Option<int>)
      modifies this`countdownMinutes
      ensures countdownMinutes == OrDefault(v, 1)
    {
      countdownMinutes := OrDefault(v, 1);
    }

    method SetWorkSec(v: Option<int>)
      modifies this`workSec
      ensures workSec == OrDefault(v, 20)
    {
      workSec := OrDefault(v, 20);
    }

    method SetRestSec(v: Option<int>)
      modifies this`restSec
      ensures restSec == OrDefault(v, 10)
    {
      restSec := OrDefault(v, 10);
    }

    method SetRounds(v: Option<int>)
      modifies this`rounds
      ensures rounds == OrDefault(v, 8)
    {
      rounds := OrDefault(v, 8);
    }
  }
}
