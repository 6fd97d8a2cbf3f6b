/** The user profile (src/lib/profile.ts): unit conversions, the shallow
    merge that `writeProfileMerge` and `readProfile` perform, and the
    weight-goal slope with the daily energy plan derived from it. Storage
    is a parameter: the stored profile is a partial record (or nothing). */
module Profile {
  import opened Seqs
  import opened JsMath

  /** Kilograms in one international avoirdupois pound. */
  const KgPerLb: real := 0.45359237

  /** Centimetres in one inch. */
  const CmPerIn: real := 2.54

  /** Energy in one kilogram of body weight change (≈ 3500 kcal per pound). */
  const KcalPerKg: real := 7700.0

  function LbToKg(lb: real): (kg: real)
    ensures (kg > 0.0 <==> lb > 0.0) && (kg < 0.0 <==> lb < 0.0)
    ensures lb > 0.0 ==> kg < lb
  {
    lb * KgPerLb
  }

  function KgToLb(kg: real): (lb: real)
    ensures (lb > 0.0 <==> kg > 0.0) && (lb < 0.0 <==> kg < 0.0)
    ensures kg > 0.0 ==> lb > kg
  {
    kg / KgPerLb
  }

  /** Both conversions use the one exact factor, so they are inverse to each other. */
  lemma LbKgRoundTrip(x: real)
    ensures KgToLb(LbToKg(x)) == x
    ensures LbToKg(KgToLb(x)) == x
  {
  }

  /** Converting pounds to kilograms keeps order. */
  lemma LbToKgMonotone(a: real, b: real)
    requires a <= b
    ensures LbToKg(a) <= LbToKg(b)
  {
  }

  datatype FtIn = FtIn(ft: int, inch: real)

  /** `ftInToCm`: the whole height in inches, in centimetres. */
  function FtInToCm(ft: real, inch: real): (cm: real)
    ensures cm / CmPerIn == ft * 12.0 + inch
    ensures ft >= 0.0 && inch >= 0.0 ==> cm >= 0.0
  {
    (ft * 12.0 + inch) * CmPerIn
  }

  /** Whole feet, and the leftover inches rounded to one decimal. The inches
      lie in [0, 12] (12.0 is what a leftover just under 12 rounds to), and
      converting back lands within a twentieth of an inch of `cm`. */
  function CmToFtIn(cm: real): (r: FtIn)
    ensures r.ft as real * 12.0 <= cm / CmPerIn < (r.ft as real + 1.0) * 12.0
    ensures r.inch * 10.0 == (r.inch * 10.0).Floor as real
    ensures var leftover := cm / CmPerIn - r.ft as real * 12.0;
            -0.05 < r.inch - leftover <= 0.05
    ensures 0.0 <= r.inch <= 12.0
    ensures cm >= 0.0 ==> r.ft >= 0
    ensures -0.05 * CmPerIn <= FtInToCm(r.ft as real, r.inch) - cm <= 0.05 * CmPerIn
  {
    var totalIn := cm / CmPerIn;
    var ft := (totalIn / 12.0).Floor;
    var leftover := totalIn - ft as real * 12.0;
    assert 0.0 <= leftover < 12.0;
    var tenths := Round(leftover * 10.0);
    assert 0 <= tenths <= 120;
    var inch := tenths as real / 10.0;
    assert -0.05 < inch - leftover <= 0.05;
    assert inch * 10.0 == tenths as real;
    assert (ft as real * 12.0 + inch) * CmPerIn - cm == (inch - leftover) * CmPerIn;
    FtIn(ft, inch)
  }

  /** A height of whole feet and inches in tenths below 12 survives the
      trip to centimetres and back unchanged. */
  lemma FtInRoundTrip(ft: nat, tenths: nat)
    requires tenths < 120
    ensures CmToFtIn(FtInToCm(ft as real, tenths as real / 10.0)) == FtIn(ft, tenths as real / 10.0)
  {
    var inch := tenths as real / 10.0;
    var totalIn := FtInToCm(ft as real, inch) / CmPerIn;
    assert totalIn == ft as real * 12.0 + inch;
    assert (totalIn / 12.0).Floor == ft by {
      assert ft as real <= totalIn / 12.0 < ft as real + 1.0;
    }
    assert Round(inch * 10.0) == tenths;
  }

  /** Whole feet, inches in tenths, and the leftover rounded half up leave
      exactly one answer: `CmToFtIn`'s. */
  lemma CmToFtInUnique(cm: real, f: FtIn)
    requires f.ft as real * 12.0 <= cm / CmPerIn < (f.ft as real + 1.0) * 12.0
    requires f.inch * 10.0 == (f.inch * 10.0).Floor as real
    requires -0.05 < f.inch - (cm / CmPerIn - f.ft as real * 12.0) <= 0.05
    ensures f == CmToFtIn(cm)
  {
    var r := CmToFtIn(cm);
    assert f.ft == r.ft;
    var n, m := (f.inch * 10.0).Floor, (r.inch * 10.0).Floor;
    assert -1.0 < (n - m) as real < 1.0;
  }

  /** A leftover just under 12 inches rounds up to 12.0 inches, not to
      one more foot: 11.97 in is 0 ft 12.0 in. */
  lemma CmToFtInRoundsToTwelve()
    ensures CmToFtIn(CmPerIn * 11.97) == FtIn(0, 12.0)
  {
    assert CmPerIn * 11.97 / CmPerIn == 11.97;
    assert (11.97 / 12.0).Floor == 0;
    assert Round(11.97 * 10.0) == 120;
  }

  datatype UnitSystem = Imperial | Metric

  datatype WeighInDay = Sun | Mon | Tue | Wed | Thu | Fri | Sat

  /** `goalDateISO` is a day number; the optional tone fields are `None` when absent. */
  datatype Profile = Profile(
    unitSystem: UnitSystem,
    age: Option<real>,
    heightCm: Option<real>,
    weightKg: Option<real>,
    goalWeightKg: Option<real>,
    goalDateISO: Option<int>,
    weighInDay: Option<WeighInDay>,
    updatedAt: int,
    toneHex: Option<string>,
    toneTintAlpha: Option<real>,
    toneBrightness: Option<real>)

  /** A `Partial<Profile>`: each field is either absent (`None`) or carries a value. */
  datatype ProfilePatch = ProfilePatch(
    unitSystem: Option<UnitSystem>,
    age: Option<Option<real>>,
    heightCm: Option<Option<real>>,
    weightKg: Option<Option<real>>,
    goalWeightKg: Option<Option<real>>,
    goalDateISO: Option<Option<int>>,
    weighInDay: Option<Option<WeighInDay>>,
    updatedAt: Option<int>,
    toneHex: Option<Option<string>>,
    toneTintAlpha: Option<Option<real>>,
    toneBrightness: Option<Option<real>>)

  const NoFields := ProfilePatch(None, None, None, None, None, None, None, None, None, None, None)

  /** The defaults `readProfile` starts from: imperial units, no body or
      goal data, stamped `now`, and the default white tone. */
  function Empty(now: int): (p: Profile)
    ensures p.unitSystem == Imperial && p.updatedAt == now
    ensures p.age.None? && p.heightCm.None? && p.weightKg.None?
    ensures p.goalWeightKg.None? && p.goalDateISO.None? && p.weighInDay.None?
    ensures p.toneHex == Some("#ffffff") && p.toneTintAlpha == Some(0.06) && p.toneBrightness == Some(0.0)
  {
    Profile(Imperial, None, None, None, None, None, None, now, Some("#ffffff"), Some(0.06), Some(0.0))
  }

  function Pick<T>(patched: Option<T>, current: T): T {
    if patched.Some? then patched.value else current
  }

  /** The object spread `{ ...p, ...patch }`: a field present in the patch
      wins. Field by field, the result written out is `p` written out with
      the patch applied after it. */
  function Overlay(p: Profile, patch: ProfilePatch): (r: Profile)
    ensures Stored(r) == Then(Stored(p), patch)
    ensures patch == NoFields ==> r == p
    ensures patch.age.Some? ==> r.age == patch.age.value
    ensures patch.age.None? ==> r.age == p.age
    ensures patch.weightKg.Some? ==> r.weightKg == patch.weightKg.value
    ensures patch.weightKg.None? ==> r.weightKg == p.weightKg
    ensures patch.updatedAt.Some? ==> r.updatedAt == patch.updatedAt.value
    ensures patch.updatedAt.None? ==> r.updatedAt == p.updatedAt
  {
    Profile(
      Pick(patch.unitSystem, p.unitSystem),
      Pick(patch.age, p.age),
      Pick(patch.heightCm, p.heightCm),
      Pick(patch.weightKg, p.weightKg),
      Pick(patch.goalWeightKg, p.goalWeightKg),
      Pick(patch.goalDateISO, p.goalDateISO),
      Pick(patch.weighInDay, p.weighInDay),
      Pick(patch.updatedAt, p.updatedAt),
      Pick(patch.toneHex, p.toneHex),
      Pick(patch.toneTintAlpha, p.toneTintAlpha),
      Pick(patch.toneBrightness, p.toneBrightness))
  }

  /** A whole profile as the record that is stored for it (every field present). */
  function Stored(p: Profile): (s: ProfilePatch)
    ensures s.age == Some(p.age) && s.updatedAt == Some(p.updatedAt)
  {
    ProfilePatch(
      Some(p.unitSystem), Some(p.age), Some(p.heightCm), Some(p.weightKg), Some(p.goalWeightKg),
      Some(p.goalDateISO), Some(p.weighInDay), Some(p.updatedAt), Some(p.toneHex),
      Some(p.toneTintAlpha), Some(p.toneBrightness))
  }

  /** Patches applied one after another: the later one's fields win. */
  function Then(first: ProfilePatch, second: ProfilePatch): ProfilePatch {
    ProfilePatch(
      if second.unitSystem.Some? then second.unitSystem else first.unitSystem,
      if second.age.Some? then second.age else first.age,
      if second.heightCm.Some? then second.heightCm else first.heightCm,
      if second.weightKg.Some? then second.weightKg else first.weightKg,
      if second.goalWeightKg.Some? then second.goalWeightKg else first.goalWeightKg,
      if second.goalDateISO.Some? then second.goalDateISO else first.goalDateISO,
      if second.weighInDay.Some? then second.weighInDay else first.weighInDay,
      if second.updatedAt.Some? then second.updatedAt else first.updatedAt,
      if second.toneHex.Some? then second.toneHex else first.toneHex,
      if second.toneTintAlpha.Some? then second.toneTintAlpha else first.toneTintAlpha,
      if second.toneBrightness.Some? then second.toneBrightness else first.toneBrightness)
  }

  /** `readProfile`: the stored fields laid over the defaults; nothing stored gives the defaults. */
  function ReadProfile(stored: Option<ProfilePatch>, now: int): (p: Profile)
    ensures stored.None? ==> p == Empty(now)
    ensures stored.Some? ==> Stored(p) == Then(Stored(Empty(now)), stored.value)
    ensures stored.Some? && stored.value.age.Some? ==> p.age == stored.value.age.value
    ensures stored.Some? && stored.value.age.None? ==> p.age.None?
    ensures stored.Some? && stored.value.unitSystem.None? ==> p.unitSystem == Imperial
  {
    Overlay(Empty(now), if stored.Some? then stored.value else NoFields)
  }

  /** `writeProfileMerge`: the current profile with the patched fields
      overridden and `updatedAt` set to `now`; the result is also what is
      stored from then on. */
  function WriteProfileMerge(stored: Option<ProfilePatch>, patch: ProfilePatch, now: int): (merged: Profile)
    ensures Stored(merged) == Then(Stored(ReadProfile(stored, now)), patch.(updatedAt := Some(now)))
    ensures merged.updatedAt == now
    ensures patch.age.Some? ==> merged.age == patch.age.value
    ensures patch.age.None? ==> merged.age == ReadProfile(stored, now).age
    ensures patch.weightKg.Some? ==> merged.weightKg == patch.weightKg.value
    ensures patch.weightKg.None? ==> merged.weightKg == ReadProfile(stored, now).weightKg
    ensures ReadProfile(Some(Stored(merged)), now) == merged
  {
    Overlay(Overlay(ReadProfile(stored, now), patch), NoFields.(updatedAt := Some(now)))
  }

  /** Reading back what was written gives exactly that profile, whatever the defaults. */
  lemma ReadAfterWrite(p: Profile, now: int)
    ensures ReadProfile(Some(Stored(p)), now) == p
  {
  }

  /** Two merges in a row equal one merge with the combined patch. */
  lemma OverlayThen(p: Profile, first: ProfilePatch, second: ProfilePatch)
    ensures Overlay(Overlay(p, first), second) == Overlay(p, Then(first, second))
  {
  }

  /** Writing the same patch twice leaves what one write leaves (up to the timestamp). */
  lemma WriteMergeIdempotent(stored: Option<ProfilePatch>, patch: ProfilePatch, now: int)
    ensures WriteProfileMerge(Some(Stored(WriteProfileMerge(stored, patch, now))), patch, now)
         == WriteProfileMerge(stored, patch, now)
  {
  }

  /** The goal slope `onTrackInfo` reports. */
  datatype TrackInfo = TrackInfo(onTrack: bool, weeklyTargetKg: real, deltaToGoalKg: real)

  /** Weeks from `today` (a day count, possibly fractional) to local midnight of the goal date. */
  function WeeksLeft(goalDay: int, today: real): real {
    (goalDay as real - today) / 7.0
  }

  /** `onTrackInfo`: nothing when the weight, goal weight or goal date is missing
      (a weight of 0 counts as missing); otherwise the distance to the goal and
      the weekly change needed to reach it by the goal date (0 once the date
      is not in the future). */
  function OnTrackInfo(p: Profile, today: real): (r: Option<TrackInfo>)
    ensures r.None? <==> p.weightKg.None? || p.weightKg == Some(0.0) || p.goalWeightKg.None?
                         || p.goalWeightKg == Some(0.0) || p.goalDateISO.None?
    ensures r.Some? ==> r.value.onTrack && r.value.deltaToGoalKg == p.weightKg.value - p.goalWeightKg.value
    ensures r.Some? && WeeksLeft(p.goalDateISO.value, today) <= 0.0 ==> r.value.weeklyTargetKg == 0.0
    ensures r.Some? && WeeksLeft(p.goalDateISO.value, today) > 0.0 ==>
              r.value.weeklyTargetKg * WeeksLeft(p.goalDateISO.value, today) == r.value.deltaToGoalKg
  {
    if p.weightKg.None? || p.weightKg.value == 0.0 || p.goalWeightKg.None? || p.goalWeightKg.value == 0.0
       || p.goalDateISO.None?
    then None
    else
      var weeksLeft := WeeksLeft(p.goalDateISO.value, today);
      var deltaToGoalKg := p.weightKg.value - p.goalWeightKg.value;
      var weeklyTargetKg := if weeksLeft > 0.0 then deltaToGoalKg / weeksLeft else 0.0;
      Some(TrackInfo(true, weeklyTargetKg, deltaToGoalKg))
  }

  datatype EnergyMode = Deficit | Surplus

  datatype EnergyPlan = EnergyPlan(mode: EnergyMode, kcalPerDay: real, weeklyTargetKg: real)

  /** `dailyEnergyPlan`: present exactly when the goal slope is; a deficit when
      weight is to be lost (or held), and the daily energy that the weekly
      target represents, never negative. */
  function DailyEnergyPlan(p: Profile, today: real): (r: Option<EnergyPlan>)
    ensures r.None? <==> OnTrackInfo(p, today).None?
    ensures r.Some? ==> r.value.weeklyTargetKg == OnTrackInfo(p, today).value.weeklyTargetKg
    ensures r.Some? ==> (r.value.mode == Deficit <==> r.value.weeklyTargetKg >= 0.0)
    ensures r.Some? ==> r.value.kcalPerDay >= 0.0
    ensures r.Some? ==> r.value.kcalPerDay * 7.0 == Abs(r.value.weeklyTargetKg) * KcalPerKg
  {
    var info := OnTrackInfo(p, today);
    if info.None? then None
    else
      var mode := if info.value.weeklyTargetKg >= 0.0 then Deficit else Surplus;
      var kcalPerDay := Abs(info.value.weeklyTargetKg) * KcalPerKg / 7.0;
      Some(EnergyPlan(mode, kcalPerDay, info.value.weeklyTargetKg))
  }
}
