/** The progressive-overload gate (src/lib/gatekeeper.ts): classify a
    proposed set (weight × reps) against the last logged set of the same
    exercise as green, amber or red, with a safer weight suggested when a cap
    is exceeded or the reps crash. The ambient profile read of the source is
    replaced by explicit `units` and `age` parameters. */
module Gatekeeper {
  import opened Seqs
  import Types
  import opened JsMath
  import opened Text
  import Profile

  datatype Tier = Novice | Intermediate | Trained

  /** Experience order of the tiers. */
  function Rank(t: Tier): nat {
    match t
    case Novice => 0
    case Intermediate => 1
    case Trained => 2
  }

  /** `tier`: the count of recent sessions; absent and 0 are falsy and give novice. */
  function TierOf(n: Option<int>): (t: Tier)
    ensures t == Novice <==> n.None? || n.value < 6
    ensures t == Intermediate <==> n.Some? && 6 <= n.value < 24
    ensures t == Trained <==> n.Some? && n.value >= 24
  {
    if n.None? || n.value == 0 || n.value < 6 then Novice
    else if n.value < 24 then Intermediate
    else Trained
  }

  /** More sessions never give a lower tier. */
  lemma TierMonotone(a: int, b: int)
    requires a <= b
    ensures Rank(TierOf(Some(a))) <= Rank(TierOf(Some(b)))
  {
  }

  /** The tier's percent cap before the age cut. */
  function BaseCap(t: Tier): real {
    match t
    case Novice => 0.10
    case Intermediate => 0.08
    case Trained => 0.06
  }

  /** The cut for age; an absent age or an age of 0 (falsy) cuts nothing. */
  function AgeCut(age: Option<real>): real {
    if age.None? || age.value == 0.0 then 0.0
    else if age.value >= 60.0 then -0.03
    else if age.value >= 50.0 then -0.02
    else if age.value >= 40.0 then -0.01
    else 0.0
  }

  /** `pctCap`: the largest relative load increase allowed. It lies in
      [3%, 10%]; the 3% floor never binds, since the lowest base (6%) less the
      largest cut (3%) is exactly 3%; and no cut applies below 40. */
  function PctCap(age: Option<real>, t: Tier): (c: real)
    ensures 0.03 <= c <= 0.10
    ensures c == BaseCap(t) + AgeCut(age)
    ensures age.None? || age.value < 40.0 ==> c == BaseCap(t)
  {
    Max(0.03, BaseCap(t) + AgeCut(age))
  }

  /** An older lifter never gets a larger percent cap. */
  lemma PctCapAgeMonotone(a1: real, a2: real, t: Tier)
    requires a1 <= a2
    ensures PctCap(Some(a2), t) <= PctCap(Some(a1), t)
  {
  }

  /** A more experienced tier never gets a larger percent cap. */
  lemma PctCapTierMonotone(age: Option<real>, t1: Tier, t2: Tier)
    requires Rank(t1) <= Rank(t2)
    ensures PctCap(age, t2) <= PctCap(age, t1)
  {
  }

  /** `absCapKg`: the largest per-set weight increase, authored in pounds
      (5, 7.5 or 12.5 lb) and converted to kilograms. From 60 it is 5 lb and
      from 50 it is 7.5 lb whatever the tier; below 50 (or with no age) a
      novice gets 7.5 lb and anyone else 12.5 lb. */
  function AbsCapKg(age: Option<real>, t: Tier): (c: real)
    ensures c == Profile.LbToKg(5.0) || c == Profile.LbToKg(7.5) || c == Profile.LbToKg(12.5)
    ensures age.Some? && age.value >= 60.0 ==> c == Profile.LbToKg(5.0)
    ensures age.Some? && 50.0 <= age.value < 60.0 ==> c == Profile.LbToKg(7.5)
    ensures age.None? || age.value < 50.0 ==> c == Profile.LbToKg(if t == Novice then 7.5 else 12.5)
  {
    var lb :=
      if age.None? || age.value == 0.0 then (if t == Novice then 7.5 else 12.5)
      else if age.value >= 60.0 then 5.0
      else if age.value >= 50.0 then 7.5
      else if t == Novice then 7.5
      else 12.5;
    Profile.LbToKg(lb)
  }

  /** An older lifter never gets a larger absolute cap. */
  lemma AbsCapAgeMonotone(a1: real, a2: real, t: Tier)
    requires a1 <= a2
    ensures AbsCapKg(Some(a2), t) <= AbsCapKg(Some(a1), t)
  {
  }

  datatype Verdict = Green | Amber | Red

  /** What the gate returns; `regression` is true only on the "below last session" path. */
  datatype GateResult = GateResult(
    verdict: Verdict,
    title: string,
    detail: string,
    suggestedWeightKg: Option<real>,
    suggestedWeightDisplay: Option<string>,
    regression: bool)

  const BaselineTitle := "New lift — establish your baseline"
  const BaselineDetailOlder := "Start conservatively and focus on flawless form this week."
  const BaselineDetail := "Build a stable baseline over the next 2–3 sessions."
  const RegressionTitle := "Below last session"
  const RegressionDetail :=
    "Not every day climbs—focus on crisp form and nail recovery. Progress resumes with consistency."
  const GreenTitle := "Solid progression"
  const GreenDetail :=
    "Mentzer would be proud — disciplined increase with room for perfect form and strong recovery."
  const RepDropTitle := "Watch the rep drop"
  const RepDropDetail :=
    "This weight may be too aggressive today. Keep form pristine; consider 1–2 fewer reps or a small deload next set."
  const RedTitle := "Caution — jump exceeds safe range"
  const RedDetail :=
    "I’d caution against this jump right now. Build power at a slightly lower weight to avoid injury and preserve recovery."

  /** The quantities `gatekeepSet` binds once some history exists. */
  datatype Assessment = Assessment(
    wKg: real,
    reps: real,
    last: Types.LastBest,
    lastLoad: real,
    newLoad: real,
    capPct: real,
    capAbs: real,
    pctIncrease: real,
    absIncreasePerSetKg: real,
    repCrash: bool,
    regression: bool)

  function Assess(
    bestBefore: Option<Types.LastBest>, lastSet: Option<Types.LastBest>, weight: real, reps: real,
    units: Profile.UnitSystem, age: Option<real>, recentSessions: Option<int>): Assessment
    requires lastSet.Some? || bestBefore.Some?
  {
    var wKg := WeightKg(weight, units);
    var reps := Max(1.0, reps);
    var best := if bestBefore.Some? then bestBefore.value else lastSet.value;
    var last := if lastSet.Some? then lastSet.value else best;
    var lastLoad := last.weightKg * last.reps;
    var newLoad := wKg * reps;
    var t := TierOf(recentSessions);
    var capPct := PctCap(age, t);
    var capAbs := AbsCapKg(age, t);
    var pctIncrease := PctIncrease(newLoad, lastLoad);
    var absIncreasePerSetKg := wKg - last.weightKg;
    var repCrash := wKg >= last.weightKg && reps < Max(1.0, Round(last.reps * 0.6) as real) as real;
    var regression := newLoad < lastLoad * 0.98;
    Assessment(wKg, reps, last, lastLoad, newLoad, capPct, capAbs, pctIncrease, absIncreasePerSetKg,
               repCrash, regression)
  }

  /** The entered weight in kilograms. */
  function WeightKg(weight: real, units: Profile.UnitSystem): real {
    if units == Profile.Imperial then Profile.LbToKg(weight) else weight
  }

  /** The relative load change; 0 when the last load is not positive. */
  function PctIncrease(newLoad: real, lastLoad: real): real {
    if lastLoad > 0.0 then (newLoad - lastLoad) / lastLoad else 0.0
  }

  /** Both caps hold. */
  predicate WithinCaps(a: Assessment) {
    a.pctIncrease <= a.capPct && a.absIncreasePerSetKg <= a.capAbs
  }

  /** The weight that meets the percent cap at the entered reps. */
  function CapByPct(a: Assessment): real
    requires a.reps >= 1.0
  {
    a.last.weightKg * a.last.reps * (1.0 + a.capPct) / a.reps
  }

  /** The weight that meets the absolute cap. */
  function CapByAbs(a: Assessment): real {
    a.last.weightKg + a.capAbs
  }

  /** The suggestion in the caller's units, rounded to a whole unit. */
  function DisplayWeight(kg: real, units: Profile.UnitSystem): string {
    if units == Profile.Imperial then IntToDecimal(Round(Profile.KgToLb(kg))) + " lb"
    else IntToDecimal(Round(kg)) + " kg"
  }

  /** `gatekeepSet`.
      With no history at all: amber, a baseline message chosen by age alone,
      no suggestion. Otherwise, writing `a` for the bound quantities: red
      exactly when a cap is exceeded; green exactly when both caps hold with
      no rep crash and no regression; amber with `regression` when both caps
      hold, no rep crash and the load fell more than 2%; amber "watch the rep
      drop" when both caps hold and the reps crashed. A suggestion is given
      exactly on the rep-drop and red paths, and it is the smaller of the two
      cap weights, so never above the last weight plus the absolute cap. */
  function GatekeepSet(
    bestBefore: Option<Types.LastBest>, lastSet: Option<Types.LastBest>, weight: real, reps: real,
    units: Profile.UnitSystem, age: Option<real>, recentSessions: Option<int>): (r: GateResult)
    ensures r.suggestedWeightKg.Some? <==> r.suggestedWeightDisplay.Some?
    ensures r.regression ==> r.verdict == Amber && r.suggestedWeightKg.None?
    ensures r.verdict == Red ==> r.title == RedTitle && r.detail == RedDetail
    ensures r.verdict == Green ==> r.title == GreenTitle && r.detail == GreenDetail
    ensures r.regression ==> r.title == RegressionTitle && r.detail == RegressionDetail
    ensures r.title == RepDropTitle ==> r.verdict == Amber && r.detail == RepDropDetail
    ensures lastSet.None? && bestBefore.None? ==>
              r.verdict == Amber && r.suggestedWeightKg.None? && !r.regression && r.title == BaselineTitle
              && r.detail == (if age.Some? && age.value >= 50.0 then BaselineDetailOlder else BaselineDetail)
    ensures lastSet.Some? || bestBefore.Some? ==>
              var a := Assess(bestBefore, lastSet, weight, reps, units, age, recentSessions);
              && (r.verdict == Red <==> !WithinCaps(a))
              && (r.verdict == Green <==> WithinCaps(a) && !a.repCrash && !a.regression)
              && (r.regression <==> WithinCaps(a) && !a.repCrash && a.regression)
              && (r.title == RepDropTitle <==> WithinCaps(a) && a.repCrash)
              && (r.suggestedWeightKg.Some? <==> !WithinCaps(a) || a.repCrash)
              && (r.suggestedWeightKg.Some? ==>
                    r.suggestedWeightKg.value == Min(CapByPct(a), CapByAbs(a))
                    && r.suggestedWeightKg.value <= a.last.weightKg + a.capAbs
                    && r.suggestedWeightDisplay.value == DisplayWeight(r.suggestedWeightKg.value, units))
  {
    if lastSet.None? && bestBefore.None? then
      GateResult(Amber, BaselineTitle,
                 if age.Some? && age.value != 0.0 && age.value >= 50.0 then BaselineDetailOlder else BaselineDetail,
                 None, None, false)
    else
      Judge(Assess(bestBefore, lastSet, weight, reps, units, age, recentSessions), units)
  }

  /** The verdict once some history exists. */
  function Judge(a: Assessment, units: Profile.UnitSystem): GateResult
    requires a.reps >= 1.0
  {
    if a.pctIncrease <= a.capPct && a.absIncreasePerSetKg <= a.capAbs && !a.repCrash then
      if a.regression then GateResult(Amber, RegressionTitle, RegressionDetail, None, None, true)
      else GateResult(Green, GreenTitle, GreenDetail, None, None, false)
    else
      var suggestedKg := Min(CapByPct(a), CapByAbs(a));
      var suggestedDisplay := DisplayWeight(suggestedKg, units);
      if a.repCrash && a.pctIncrease <= a.capPct && a.absIncreasePerSetKg <= a.capAbs then
        GateResult(Amber, RepDropTitle, RepDropDetail, Some(suggestedKg), Some(suggestedDisplay), false)
      else
        GateResult(Red, RedTitle, RedDetail, Some(suggestedKg), Some(suggestedDisplay), false)
  }

  /** Once the last set is known the window's best set plays no part: only
      the last set feeds the load, cap and suggestion arithmetic. */
  lemma BestBeforeIgnoredWithLastSet(
    b1: Option<Types.LastBest>, b2: Option<Types.LastBest>, last: Types.LastBest, weight: real, reps: real,
    units: Profile.UnitSystem, age: Option<real>, recentSessions: Option<int>)
    ensures GatekeepSet(b1, Some(last), weight, reps, units, age, recentSessions)
         == GatekeepSet(b2, Some(last), weight, reps, units, age, recentSessions)
  {
    var a := Assess(b1, Some(last), weight, reps, units, age, recentSessions);
    assert a == Assess(b2, Some(last), weight, reps, units, age, recentSessions);
    assert GatekeepSet(b1, Some(last), weight, reps, units, age, recentSessions) == Judge(a, units);
    assert GatekeepSet(b2, Some(last), weight, reps, units, age, recentSessions) == Judge(a, units);
  }

  lemma MulMonotone(x: real, y: real, c: real)
    requires x <= y && c >= 0.0
    ensures x * c <= y * c
  {
  }

  lemma DivMonotone(x: real, y: real, c: real)
    requires x <= y && c > 0.0
    ensures x / c <= y / c
  {
    assert y / c - x / c == (y - x) / c;
  }

  /** Red is upward-closed in the entered weight: with everything else fixed,
      a weight that is red stays red at any heavier weight, because the
      relative and absolute increases only grow with the weight. */
  lemma RedUpwardClosed(
    bestBefore: Option<Types.LastBest>, lastSet: Option<Types.LastBest>, w1: real, w2: real, reps: real,
    units: Profile.UnitSystem, age: Option<real>, recentSessions: Option<int>)
    requires w1 <= w2
    requires GatekeepSet(bestBefore, lastSet, w1, reps, units, age, recentSessions).verdict == Red
    ensures GatekeepSet(bestBefore, lastSet, w2, reps, units, age, recentSessions).verdict == Red
  {
    WithinCapsDownward(bestBefore, lastSet, w1, w2, reps, units, age, recentSessions);
  }

  /** Both caps holding at some weight implies they hold at any lighter one. */
  lemma WithinCapsDownward(
    bestBefore: Option<Types.LastBest>, lastSet: Option<Types.LastBest>, w1: real, w2: real, reps: real,
    units: Profile.UnitSystem, age: Option<real>, recentSessions: Option<int>)
    requires lastSet.Some? || bestBefore.Some?
    requires w1 <= w2
    ensures WithinCaps(Assess(bestBefore, lastSet, w2, reps, units, age, recentSessions))
        ==> WithinCaps(Assess(bestBefore, lastSet, w1, reps, units, age, recentSessions))
  {
    var a1 := Assess(bestBefore, lastSet, w1, reps, units, age, recentSessions);
    var a2 := Assess(bestBefore, lastSet, w2, reps, units, age, recentSessions);
    PctIncreaseGrowsWithWeight(bestBefore, lastSet, w1, w2, reps, units, age, recentSessions);
    if units == Profile.Imperial { Profile.LbToKgMonotone(w1, w2); }
    CapsCompare(a1, a2);
  }

  /** The relative load increase never shrinks as the weight grows. */
  lemma PctIncreaseGrowsWithWeight(
    bestBefore: Option<Types.LastBest>, lastSet: Option<Types.LastBest>, w1: real, w2: real, reps: real,
    units: Profile.UnitSystem, age: Option<real>, recentSessions: Option<int>)
    requires lastSet.Some? || bestBefore.Some?
    requires w1 <= w2
    ensures Assess(bestBefore, lastSet, w1, reps, units, age, recentSessions).pctIncrease
         <= Assess(bestBefore, lastSet, w2, reps, units, age, recentSessions).pctIncrease
  {
    var a1 := Assess(bestBefore, lastSet, w1, reps, units, age, recentSessions);
    var a2 := Assess(bestBefore, lastSet, w2, reps, units, age, recentSessions);
    var k1, k2 := WeightKg(w1, units), WeightKg(w2, units);
    if units == Profile.Imperial { Profile.LbToKgMonotone(w1, w2); }
    MulMonotone(k1, k2, Max(1.0, reps));
    if a1.lastLoad > 0.0 {
      DivMonotone(a1.newLoad - a1.lastLoad, a2.newLoad - a1.lastLoad, a1.lastLoad);
    }
  }

  lemma CapsCompare(a1: Assessment, a2: Assessment)
    requires a1.capPct == a2.capPct && a1.capAbs == a2.capAbs
    requires a1.pctIncrease <= a2.pctIncrease && a1.absIncreasePerSetKg <= a2.absIncreasePerSetKg
    ensures WithinCaps(a2) ==> WithinCaps(a1)
  {
  }

  /** Scenario: a novice aged 30 whose last set was 100 kg × 10 enters
      112 kg × 10 — 12% over a 10% cap: red, suggesting the absolute cap
      weight 100 kg + 7.5 lb. */
  lemma ScenarioPercentCapExceeded()
    ensures var r := GatekeepSet(None, Some(Types.LastBest(100.0, 10.0, 0)), 112.0, 10.0, Profile.Metric, Some(30.0), Some(0));
            r.verdict == Red && r.suggestedWeightKg == Some(100.0 + 7.5 * Profile.KgPerLb)
  {
    var a := Assess(None, Some(Types.LastBest(100.0, 10.0, 0)), 112.0, 10.0, Profile.Metric, Some(30.0), Some(0));
    assert a.capPct == 0.10 && a.capAbs == 7.5 * Profile.KgPerLb;
    assert a.pctIncrease == 0.12;
    assert CapByPct(a) == 110.0;
  }

  /** Scenario: 105 kg × 10 is within the 10% cap but 5 kg exceeds the
      7.5 lb absolute cap: red. */
  lemma ScenarioAbsoluteCapExceeded()
    ensures GatekeepSet(None, Some(Types.LastBest(100.0, 10.0, 0)), 105.0, 10.0, Profile.Metric, Some(30.0), Some(0)).verdict == Red
  {
  }

  /** Scenario: 100 kg × 9 loses 10% of the load — amber regression, no suggestion. */
  lemma ScenarioFewerRepsIsRegression()
    ensures var r := GatekeepSet(None, Some(Types.LastBest(100.0, 10.0, 0)), 100.0, 9.0, Profile.Metric, Some(30.0), Some(0));
            r.verdict == Amber && r.regression && r.suggestedWeightKg.None?
  {
  }

  /** Scenario: 100 kg × 5 after 100 kg × 10 is a rep crash (5 < 6) within both caps:
      amber "watch the rep drop", with a suggestion. */
  lemma ScenarioRepCrash()
    ensures var r := GatekeepSet(None, Some(Types.LastBest(100.0, 10.0, 0)), 100.0, 5.0, Profile.Metric, Some(30.0), Some(0));
            r.verdict == Amber && r.title == RepDropTitle && r.suggestedWeightKg.Some?
  {
  }

  /** Scenario: exactly 98% of the last load is not a regression: green. */
  lemma ScenarioRegressionBoundary()
    ensures GatekeepSet(None, Some(Types.LastBest(100.0, 10.0, 0)), 98.0, 10.0, Profile.Metric, Some(30.0), Some(0)).verdict == Green
  {
  }
}
