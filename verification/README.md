# mentrogress core, modelled in Dafny

mentrogress is a strength-training tracker. Lifters log sets (weight × reps
per exercise and date). A **progressive-overload gate** then judges each
proposed set against the previous one as green, amber or red, and suggests a
safer weight when a jump is too large. Around the gate sit:

- the set-log store and its history queries;
- volume and best-set aggregations;
- the "which session to summarise" helper;
- weigh-ins with an on-track traffic light;
- workout templates and their slugs;
- workout sessions;
- three small state machines: the active-workout stopwatch, the fasting
  tracker and the stopwatch/countdown/tabata timer;
- unit conversions and the daily energy plan;
- the accent-colour parser;
- the keyword-to-icon classifier.

This project models that core in Dafny and proves what the code promises.
There is one module per source file:

| module | source file |
|---|---|
| `Gatekeeper` | `gatekeeper.ts` |
| `Logs` | `logs.ts` |
| `Progress` | `progress.ts` |
| `LogHelpers` | `logHelpers.ts` |
| `WeighIns` | `weighIns.ts` |
| `Templates` | `templates.ts` |
| `Sessions` | `sessions.ts` |
| `ActiveWorkout` | `ActiveWorkoutProvider.tsx` |
| `Fasting` | `fasting.ts` |
| `Profile` | `profile.ts` |
| `TimerPanel` | `TimerPanel.tsx` |
| `IconForName` | `iconForName.tsx` |
| `ToneLoader` | `ToneLoader.tsx` |

Four modules are shared helpers:

- `Seqs`: `Option`, `findIndex`, `filter`, the running arg-max, sums and a
  stable key sort.
- `Text`: decimal printing, `padStart`, `mm:ss` and ASCII lower-casing.
- `JsMath`: `Math.round`, max/min/abs and JavaScript's `%`.
- `Types`: the shared records.

Representation choices:

- **Numbers.** JavaScript numbers are exact `real`s. `Math.round` is the
  floor of x + 0.5.
- **Dates.** An ISO calendar date is its day number. For `YYYY-MM-DD`
  strings, lexicographic order is chronological order, which is numeric
  order on day numbers. Timestamps are integer milliseconds; the stopwatch
  uses `real` milliseconds.
- **Stores.** Each persisted store becomes a class whose field holds what
  storage holds: `Logs.LogStore`, `Templates.TemplateStore`,
  `Sessions.SessionStore` and `Fasting.FastingTracker`. Their methods update
  that field in place and are specified by the pure functions beside them.
  The React state of the stopwatch and of the timer panel becomes the
  classes `ActiveWorkout.Stopwatch` and `TimerPanel.Timer`.
- **Loops.** Where the source runs a loop, the model is a method with loop
  invariants, proved against a reference function:
  - `lastSetBefore`, `bestBefore` and `bestSet`;
  - the map-filling loops of `byDayVolumeKg` and `gatherSessionSetsFor`.

  `fastingMilestones` has no loop: it is four guarded pushes onto a list.
  Its method keeps that straight-line form and is proved against the
  reference function `Milestones`.
- **Inputs.** The clock (`now`, "today"), fresh ids and the profile fields
  the gate reads are parameters.

## Model

| member | source | states |
|---|---|---|
| Seqs.FindIndex | src/lib/templates.ts:45 | `findIndex`: the first index whose element satisfies the predicate, or -1 exactly when none does |
| Seqs.Filter | src/lib/templates.ts:52 | `filter`: keeps exactly the elements satisfying the predicate, each as often as it occurred, never lengthening the list |
| Seqs.FilterAll | src/lib/templates.ts:52 | when every element passes, `filter` returns the list itself, order included |
| Seqs.FilterNone | src/lib/templates.ts:52 | when no element passes, `filter` returns the empty list |
| Seqs.FilterCons | src/lib/templates.ts:52 | `filter` decides the head first: kept in front of the filtered tail when it passes, dropped otherwise |
| Seqs.FilterDropsPrefix | src/lib/logs.ts:101 | a leading stretch with no passing element can be cut off without changing the filtered list |
| Seqs.FilterDropsSuffix | src/lib/logs.ts:101 | a trailing stretch with no passing element can be cut off without changing the filtered list |
| Seqs.FilterSlice | src/lib/logs.ts:101 | a slice outside which nothing passes filters to the same list, in the same order |
| Seqs.FilterConcat | src/lib/logs.ts:101 | filtering distributes over concatenation, so the kept elements stay in their relative order |
| Seqs.FilterKeepsDistinct | src/lib/weighIns.ts:18 | filtering a list whose elements have distinct keys keeps them distinct |
| Seqs.ArgMax | src/lib/logs.ts:134-142 | the scan's best index: -1 iff the list is empty, otherwise an element of greatest score with every earlier element strictly lower (first wins on ties) |
| Seqs.ArgMaxStep | src/lib/logs.ts:136-141 | one loop step moves the best index to the new element only on a strictly greater score |
| Seqs.Sum | src/lib/progress.ts:30 | the `reduce` sum is 0 on an empty list and never negative when every term is non-negative |
| Seqs.SumConcat | src/lib/progress.ts:30 | the sum is additive over concatenation |
| Seqs.SortBy | src/lib/logs.ts:69 | the key sort returns a permutation (same multiset) of its input, ordered by the key |
| Seqs.InsertByStable | src/lib/logs.ts:69 | inserting one element puts it in front of every element with the same key, and leaves the order among the others alone |
| Seqs.SortByStable | src/lib/logs.ts:69 | the sort is stable, as `Array.prototype.sort` is: the elements of any one key come out in their input order |
| Seqs.SortByKeepsDistinct | src/lib/weighIns.ts:20 | sorting keeps distinct keys distinct |
| Text.NatToDecimal | src/lib/fasting.ts:67 | `String(n)`: at least one decimal digit, and the digits' value is `n` |
| Text.NatToDecimalCanonical | src/lib/fasting.ts:67 | `String(n)` has no leading zero: one character, or a first digit other than 0 |
| Text.IntToDecimal | src/lib/gatekeeper.ts:129-130 | `String(i)` of any integer: a minus sign then the digits of `-i` for a negative value |
| Text.PadStart2 | src/app/log/logHelpers.ts:9-10 | `padStart(2, "0")`: at least two characters, the text kept whole at the end, the value unchanged |
| Text.MmSs | src/app/log/logHelpers.ts:9-11 | `mm:ss`: minutes of at least two digits, never truncated, with no zero in front beyond the two-digit padding; seconds of two digits below 60; minutes·60 + seconds recovers the count |
| Text.MmSsZero | src/components/TimerPanel.tsx:16-19 | zero seconds print as "00:00" |
| Text.ToLowerAscii | src/lib/templates.ts:57 | `toLowerCase` on ASCII: same length, each upper-case letter lowered, every other character kept |
| Text.ToLowerAsciiIdempotent | src/lib/iconForName.tsx:40 | lower-casing twice is lower-casing once |
| JsMath.Round | src/lib/gatekeeper.ts:99 | `Math.round`: the integer within (x − ½, x + ½] |
| JsMath.JsRem | src/lib/fasting.ts:62 | JavaScript `%`: the Euclidean remainder on non-negative dividends; on a negative one, the Euclidean remainder less the divisor (0 when it divides), so in (−b, 0] |
| Profile.LbToKg | src/lib/profile.ts:70 | pounds to kilograms keeps the sign and shrinks a positive weight |
| Profile.KgToLb | src/lib/profile.ts:71 | kilograms to pounds keeps the sign and grows a positive weight |
| Profile.LbKgRoundTrip | src/lib/profile.ts:70-71 | the two conversions are exact inverses in both directions |
| Profile.LbToKgMonotone | src/lib/profile.ts:70 | the conversion keeps order |
| Profile.FtInToCm | src/lib/profile.ts:79 | `(12·ft + in)·2.54`: dividing by 2.54 gives back the height in inches, and a height of non-negative feet and inches is non-negative; `FtInRoundTrip` ties it to `cmToFtIn` |
| Profile.CmToFtIn | src/lib/profile.ts:73-78 | `ft` is the whole feet in `cm / 2.54` (`Math.floor`); `inch` lies on the tenths grid and within (−0.05, 0.05] of the leftover inches, which is `Math.round` to one decimal, halves up; inches within [0, 12]; `ftInToCm` of the result within 0.05 in of the input |
| Profile.CmToFtInUnique | src/lib/profile.ts:73-78 | those three properties leave exactly one answer, the function's |
| Profile.CmToFtInRoundsToTwelve | src/lib/profile.ts:76 | 11.97 in (2.54·11.97 cm) gives 0 ft 12.0 in: the rounding reaches 12.0 and does not carry into the feet |
| Profile.FtInRoundTrip | src/lib/profile.ts:73-79 | whole feet with inches in tenths below 12 survive `ftInToCm` then `cmToFtIn` unchanged |
| Profile.Empty | src/lib/profile.ts:41-55 | the defaults field by field: imperial; no age, height, weight, goal weight, goal date or weigh-in day; tone "#ffffff" with tint 0.06 and brightness 0; stamped `now` |
| Profile.Overlay | src/lib/profile.ts:27 | the object spread: every field present in the patch wins, every absent one keeps the base (the stored fields of the result are those of the base followed by the patch); an empty patch changes nothing |
| Profile.ReadProfile | src/lib/profile.ts:21-31 | nothing stored gives the defaults; otherwise every stored field overrides its default and every unstored one keeps it |
| Profile.WriteProfileMerge | src/lib/profile.ts:33-37 | every field: the patched ones overridden, the others as currently read, `updatedAt` = now; reading back what is written gives the result |
| Profile.ReadAfterWrite | src/lib/profile.ts:21-37 | reading back a written profile gives it exactly, whatever the defaults |
| Profile.OverlayThen | src/lib/profile.ts:34 | two merges in a row equal one merge with the combined patch |
| Profile.WriteMergeIdempotent | src/lib/profile.ts:33-37 | writing the same patch twice at one time leaves what one write leaves |
| Profile.OnTrackInfo | src/lib/profile.ts:58-67 | none iff weight, goal weight or goal date is missing (or a weight is 0); otherwise delta = weight − goal, weekly target 0 when the goal date is not ahead, and otherwise target × weeks left = delta |
| Profile.DailyEnergyPlan | src/lib/profile.ts:83-96 | present iff the slope is; passes the weekly target through; deficit iff target ≥ 0; kcal/day ≥ 0 with kcal/day·7 = abs(target)·7700 |
| Gatekeeper.TierOf | src/lib/gatekeeper.ts:20-24 | novice iff absent or below 6 (0 included), intermediate iff 6–23, trained iff 24 or more |
| Gatekeeper.TierMonotone | src/lib/gatekeeper.ts:20-24 | more recent sessions never give a lower tier |
| Gatekeeper.PctCap | src/lib/gatekeeper.ts:25-40 | the cap lies in [0.03, 0.10]; it equals base + age cut (the 3% floor never binds); no cut without an age or below 40 |
| Gatekeeper.PctCapAgeMonotone | src/lib/gatekeeper.ts:30-39 | an older lifter never gets a larger percent cap |
| Gatekeeper.PctCapTierMonotone | src/lib/gatekeeper.ts:29-39 | a more experienced tier never gets a larger percent cap |
| Gatekeeper.AbsCapKg | src/lib/gatekeeper.ts:41-54 | `lbToKg` of 5, 7.5 or 12.5 lb; 5 lb from 60 and 7.5 lb from 50 whatever the tier; below 50 or without age, 7.5 lb for a novice and 12.5 lb otherwise |
| Gatekeeper.AbsCapAgeMonotone | src/lib/gatekeeper.ts:41-53 | an older lifter never gets a larger absolute cap |
| Gatekeeper.GatekeepSet | src/lib/gatekeeper.ts:56-151 | no history: amber baseline with the detail chosen by age ≥ 50 alone, no suggestion or regression flag. Otherwise: red iff a cap is exceeded; green iff within caps with no rep crash and no regression; `regression` iff within caps, no crash and load < 98%; "watch the rep drop" iff within caps with a crash. A suggestion is present iff not green or amber-regression, equals min(capByPct, capByAbs), and is at most last weight + absolute cap. Each verdict carries its own title and detail: red the caution text, green "Solid progression", regression "Below last session", rep drop its own detail |
| Gatekeeper.BestBeforeIgnoredWithLastSet | src/lib/gatekeeper.ts:87-131 | once a last set is given, the window's best set does not affect the result |
| Gatekeeper.RedUpwardClosed | src/lib/gatekeeper.ts:84-150 | with reps, history, age and tier fixed, a red weight stays red at any heavier weight |
| Gatekeeper.WithinCapsDownward | src/lib/gatekeeper.ts:96-105 | both caps holding at a weight implies they hold at any lighter one |
| Gatekeeper.PctIncreaseGrowsWithWeight | src/lib/gatekeeper.ts:84-96 | the relative load increase never shrinks as the weight grows |
| Gatekeeper.CapsCompare | src/lib/gatekeeper.ts:105 | smaller increases against the same caps stay within them |
| Gatekeeper.ScenarioPercentCapExceeded | src/lib/gatekeeper.ts:124-150 | 112 kg × 10 after 100 kg × 10 (novice, 30) is red, suggesting 100 kg + 7.5 lb |
| Gatekeeper.ScenarioAbsoluteCapExceeded | src/lib/gatekeeper.ts:97-105 | 105 kg × 10 after 100 kg × 10 breaks the 7.5 lb absolute cap: red |
| Gatekeeper.ScenarioFewerRepsIsRegression | src/lib/gatekeeper.ts:102-113 | 100 kg × 9 after 100 kg × 10: amber regression without suggestion |
| Gatekeeper.ScenarioRepCrash | src/lib/gatekeeper.ts:98-140 | 100 kg × 5 after 100 kg × 10 is a rep crash within caps: amber "watch the rep drop" with a suggestion |
| Gatekeeper.ScenarioRegressionBoundary | src/lib/gatekeeper.ts:102 | exactly 98% of the last load is not a regression: green |
| Logs.ListSetsAsc | src/lib/logs.ts:58-70 | a permutation of the exercise's rows ordered by date, then `createdAt`; empty for an unknown exercise |
| Logs.ListSetsAscStable | src/lib/logs.ts:58-70 | rows with the same date and `createdAt` (the migration at lines 31-34 stamps legacy rows of one date alike) keep their stored order, which decides `lastSetBefore` and the first-of-greatest `bestBefore` among them |
| Logs.ListSetsAscMembers | src/lib/logs.ts:67-70 | the listing holds exactly the exercise's rows |
| Logs.Appended | src/lib/logs.ts:72-83 | the exercise's rows gain exactly the new row at the end; every other exercise is unchanged; the listing's multiset gains that row |
| Logs.Patched | src/lib/logs.ts:94 | patched fields replaced, the others, `id` and `createdAt` kept |
| Logs.Updated | src/lib/logs.ts:85-97 | only the first row with the id is patched, the length kept, other exercises untouched; with no such row the store is unchanged |
| Logs.Removed | src/lib/logs.ts:99-104 | the exercise's rows become their `filter` by another id: exactly the rows without the id, in their order, each as often as before; other exercises untouched; the key is written |
| Logs.LastIndexOnOrBefore | src/lib/logs.ts:112-115 | the backward scan's index: a row dated on or before the date with every later row after it, or -1 |
| Logs.LastIndexIsLatest | src/lib/logs.ts:107-116 | in a chronological listing that row is the chronologically greatest row on or before the date |
| Logs.LastSetNoneIff | src/lib/logs.ts:107-116 | `lastSetBefore` is null iff every row of the exercise is dated after the date |
| Logs.Candidates | src/lib/logs.ts:122-132 | when some row falls in the window [date − 7·weeks, date], exactly those rows in listing order; otherwise exactly the rows on or before the date, in listing order; empty iff every row is after the date |
| Logs.BestBeforeNoneIff | src/lib/logs.ts:117-146 | `bestBefore` is null iff every row is dated after the date, whatever the window |
| Logs.LogStore.AddSet | src/lib/logs.ts:72-83 | returns the row with the fresh id, given fields and `now`; the store becomes `Appended` |
| Logs.LogStore.UpdateSet | src/lib/logs.ts:85-97 | the store becomes `Updated` |
| Logs.LogStore.RemoveSet | src/lib/logs.ts:99-104 | the store becomes `Removed` |
| Logs.LogStore.LastSetBefore | src/lib/logs.ts:107-116 | the backward loop returns the row at `LastIndexOnOrBefore` of the listing, or none |
| Logs.HeaviestOf | src/lib/logs.ts:134-141 | the scan ends on the first candidate of greatest load (`ArgMax` by load), and on none when there is no candidate |
| Logs.LogStore.BestBefore | src/lib/logs.ts:117-146 | the loop returns the candidate at `ArgMax` by load (first of greatest load), or none |
| Progress.TotalVolumeKg | src/lib/progress.ts:29-31 | Σ weightKg·reps: 0 for no entries, non-negative for non-negative entries |
| Progress.TotalVolumeKgConcat | src/lib/progress.ts:29-31 | additive over concatenation |
| Progress.TotalVolume | src/lib/progress.ts:39-41 | Σ weight·reps: 0 for no entries, non-negative for non-negative entries |
| Progress.TotalVolumeConcat | src/lib/progress.ts:39-41 | additive over concatenation |
| Progress.SliceByDate | src/lib/progress.ts:35-37 | the `filter` of the entries to those dated in [start, end]: exactly those, in their order, each as often as before |
| Progress.BestSet | src/lib/progress.ts:42-53 | none iff no entries; otherwise the first entry of greatest load, with that load as score |
| Progress.DateSetCard | src/lib/progress.ts:69 | distinct dates are at most the entries, and at least one when there is an entry |
| Progress.WorkoutDaysCount | src/lib/progress.ts:68-70 | at most the number of entries, 0 iff there are none |
| Progress.VolumeOnUnlogged | src/lib/progress.ts:74-77 | a day with no entry has no volume |
| Progress.RowDatesCard | src/lib/progress.ts:78-80 | rows with distinct dates carry as many dates as rows |
| Progress.SpreadVolumeTotal | src/lib/progress.ts:72-81 | summing each day's volume over rows with distinct dates that cover every logged date gives the total volume |
| Progress.ByDayAgreesWithTotals | src/lib/progress.ts:72-81 | per-day rows carrying exactly the logged dates and each date's volume sum to `totalVolumeKg` and number `workoutDaysCount` |
| Progress.ByDayVolumeKg | src/lib/progress.ts:72-81 | one row per logged date, strictly ascending, each with that day's volume; row count = `workoutDaysCount`; volumes sum to `totalVolumeKg` |
| Progress.SortDistinctRows | src/lib/progress.ts:79 | sorting rows with distinct dates orders them strictly and keeps exactly the rows |
| Progress.SortedRowsOfDayMap | src/lib/progress.ts:78-80 | the rows of the finished day map, sorted, meet `ByDayVolumeKg`'s contract |
| LogHelpers.WholeSeconds | src/app/log/logHelpers.ts:8 | `max(0, floor(ms/1000))`: the whole seconds in a non-negative ms, 0 below one second |
| LogHelpers.FmtDuration | src/app/log/logHelpers.ts:7-12 | the label shows the whole seconds `max(0, floor(ms / 1000))` as `mm:ss`: minutes at least two digits with no zero beyond the padding, seconds two digits below 60, minutes·60 + seconds = the whole seconds |
| LogHelpers.FmtDurationNegative | src/app/log/logHelpers.ts:8 | a negative duration shows as "00:00" |
| LogHelpers.RowsOn | src/app/log/logHelpers.ts:22-30 | one exercise's rows on a date are all dated that day and tagged with the exercise |
| LogHelpers.RowsOnNonEmpty | src/app/log/logHelpers.ts:22-30 | an exercise has sets on a date iff one of its rows carries it |
| LogHelpers.SetsOn | src/app/log/logHelpers.ts:20-32 | the template's sets on a date, exercise by exercise then chronologically, all dated that day |
| LogHelpers.SetsOnNonEmpty | src/app/log/logHelpers.ts:33-34 | a date has sets iff some template exercise logged it |
| LogHelpers.GatherSessionSetsFor | src/app/log/logHelpers.ts:14-40 | null template: no sets, null date. Date null iff nothing logged; today when preferred and logged, else the latest logged date; sets exactly the template's sets on it |
| LogHelpers.CollectByDate | src/app/log/logHelpers.ts:20-32 | the nested loops key every logged date to the template's sets on it, and only those dates |
| LogHelpers.AddRows | src/app/log/logHelpers.ts:22-31 | the inner loop appends each row of one exercise to its date's list |
| LogHelpers.LastIsLatest | src/app/log/logHelpers.ts:33-38 | the last of the sorted dates is logged and not below any logged date |
| WeighIns.AddWeighIn | src/lib/weighIns.ts:16-23 | holds the entry exactly once and no other entry on its date; holds exactly the entry and the earlier entries on other dates; keeps those entries' multiplicities; sorted by date |
| WeighIns.AddWeighInKeepsDistinct | src/lib/weighIns.ts:18-20 | a list with one entry per date keeps that shape |
| WeighIns.AddWeighInOverwrites | src/lib/weighIns.ts:16-23 | a second entry on the same date replaces the first |
| WeighIns.LastN | src/lib/weighIns.ts:25-27 | `slice(-n)`: a suffix; the last min(n, length) for n ≥ 1; the whole list for n = 0; the list less its first −n entries for n < 0 |
| WeighIns.Classify | src/lib/weighIns.ts:63-65 | red iff diff > 0.22, amber iff 0.11 < diff ≤ 0.22, green iff diff ≤ 0.11 |
| WeighIns.ClassifyMonotone | src/lib/weighIns.ts:58-65 | a larger miss is never judged better |
| WeighIns.OnTrackStatus | src/lib/weighIns.ts:35-65 | null iff goal date, weight or goal weight is missing or fewer than two weigh-ins; otherwise red/green by the difference between the last two weigh-ins' rate (span ≥ 1/7 week) and the rate needed (≥ 0.01 weeks left) |
| WeighIns.OnTrackUsesLastTwo | src/lib/weighIns.ts:43-44 | only the last two weigh-ins affect the light |
| WeighIns.OnPaceIsGreen | src/lib/weighIns.ts:46-65 | continuing at the rate shown and reaching the goal exactly on the goal date is green |
| Templates.Upserted | src/lib/templates.ts:43-47 | an existing id: the first such entry replaced in place, length and all other positions kept; a new id: prepended, the old list following unchanged |
| Templates.UpsertedThenFound | src/lib/templates.ts:43-47 | after an upsert the first template with that id is the upserted one |
| Templates.Removed | src/lib/templates.ts:51-53 | the list becomes its `filter` by another id: exactly the templates with another id, in their order, each as often as before |
| Templates.RemoveAfterUpsert | src/lib/templates.ts:43-53 | removing an id after upserting it leaves what removing it from the original leaves |
| Templates.TemplateStore.UpsertTemplate | src/lib/templates.ts:43-49 | the list becomes `Upserted` |
| Templates.TemplateStore.RemoveTemplate | src/lib/templates.ts:51-53 | the list becomes `Removed` |
| Templates.LeadingWhitespace | src/lib/templates.ts:58 | the length of the white-space run `trim` cuts from the front: white space before it, none at it |
| Templates.TrailingWhitespace | src/lib/templates.ts:58 | the length of the white-space run `trim` cuts from the back: white space after it, none just before it |
| Templates.Trim | src/lib/templates.ts:58 | `trim`: a slice of the input with only white space outside it, and neither end white space |
| Templates.TrimKeepsAlnum | src/lib/templates.ts:58 | trimming keeps every character of `[a-z0-9]`, in order |
| Templates.LeadingRun | src/lib/templates.ts:59 | the length of the leading run outside `[a-z0-9]` that one match of `[^a-z0-9]+` consumes: none of `[a-z0-9]` before it, one at it |
| Templates.SkipRunKeepsAlnum | src/lib/templates.ts:59 | the skipped run holds nothing of `[a-z0-9]` |
| Templates.CollapseRuns | src/lib/templates.ts:59 | only `[a-z0-9-]`, no two hyphens in a row, empty iff the input is, a leading hyphen iff the input starts outside `[a-z0-9]` |
| Templates.CollapseRunsKeepsAlnum | src/lib/templates.ts:59 | the replacement keeps every character of `[a-z0-9]`, in order: only runs of other characters become hyphens |
| Templates.CollapseRunsAlnumPrefix | src/lib/templates.ts:59 | a leading stretch of `[a-z0-9]` passes through the replacement unchanged |
| Templates.StripHyphensKeepsAlnum | src/lib/templates.ts:60 | dropping one hyphen at each end keeps every character of `[a-z0-9]`, in order |
| Templates.Slugify | src/lib/templates.ts:55-61 | the result only holds `[a-z0-9-]`, has no doubled hyphen and no hyphen at either end |
| Templates.SlugifyKeepsAlnum | src/lib/templates.ts:55-61 | the letters and digits of the slug are exactly those of the lower-cased name, in order |
| Templates.SlugifyTwoWords | src/lib/templates.ts:55-61 | two words of `[a-z0-9]` with a space between them slugify to the words joined by a hyphen ("push day" gives "push-day") |
| Templates.StripHyphensMakesSlug | src/lib/templates.ts:60 | dropping one hyphen at each end of a collapsed string leaves a slug |
| Templates.CollapseRunsOfSlugChars | src/lib/templates.ts:59 | collapsing leaves such a string alone |
| Templates.SlugFixed | src/lib/templates.ts:55-61 | a slug is its own slug |
| Templates.SlugifyIdempotent | src/lib/templates.ts:55-61 | slugify(slugify(x)) = slugify(x) |
| Templates.CollapseRunsNoAlnum | src/lib/templates.ts:59 | a string with no `[a-z0-9]` collapses to at most one hyphen |
| Templates.TrimNoAlnum | src/lib/templates.ts:58 | trimming keeps a string free of `[a-z0-9]` |
| Templates.SlugifyNoAlnum | src/lib/templates.ts:55-61 | a name without ASCII letters or digits slugifies to "" |
| Sessions.DayOf | src/lib/sessions.ts:43 | the UTC day of a timestamp: d·86400000 ≤ t < (d+1)·86400000 |
| Sessions.Ended | src/lib/sessions.ts:59-65 | only the first session with the id gets `endedAt`, every other position unchanged; no match: list unchanged |
| Sessions.ListSessionsForDay | src/lib/sessions.ts:74-78 | exactly that day's sessions, each as often as stored, ascending by start time |
| Sessions.ListSessionsForDayStable | src/lib/sessions.ts:74-78 | sessions of the day with the same start time keep their stored order |
| Sessions.GetSession | src/lib/sessions.ts:80-82 | none iff no session has the id; otherwise the first session with it |
| Sessions.GetAfterStart | src/lib/sessions.ts:36-57 | a started session is found again by its fresh id |
| Sessions.GetAfterEnd | src/lib/sessions.ts:59-67 | reading an ended session back shows its end time |
| Sessions.ListedAfterStart | src/lib/sessions.ts:74-78 | a started session is listed under its day |
| Sessions.SessionStore.StartSession | src/lib/sessions.ts:36-57 | appends exactly one session with the fresh id, start = given time or now, its day; makes it current; it can be found again |
| Sessions.SessionStore.EndSession | src/lib/sessions.ts:59-67 | the list becomes `Ended` with the given time or now; current cleared always |
| ActiveWorkout.FiniteNumber | src/providers/ActiveWorkoutProvider.tsx:32-34 | `Number(v)` when finite: a number is itself, undefined and non-finite values give none |
| ActiveWorkout.NumOrZero | src/providers/ActiveWorkoutProvider.tsx:32 | the finite number, else 0 |
| ActiveWorkout.Normalize | src/providers/ActiveWorkoutProvider.tsx:37-47 | template id present iff a non-empty string; running iff `true`; `startedAt` the finite number (null reads 0); elapsed finite or 0 |
| ActiveWorkout.NormalizeBlankAsWritten | src/providers/ActiveWorkoutProvider.tsx:44 | the stored blank record reads back with `startedAt` 0, not the blank record |
| ActiveWorkout.NumOrNull | src/providers/ActiveWorkoutProvider.tsx:33-34 | null stays null; otherwise the finite number |
| ActiveWorkout.NormalizeFixed | src/providers/ActiveWorkoutProvider.tsx:37-47 | `normalize` with a null `startedAt` kept null; other fields as `Normalize` |
| ActiveWorkout.NormalizeFixedRoundTrip | src/providers/ActiveWorkoutProvider.tsx:37-47 | storing then reading back gives the same workout (non-empty template id) |
| ActiveWorkout.ComputeElapsed | src/providers/ActiveWorkoutProvider.tsx:88-95 | base + max(0, now − start) while running with a start, base otherwise; never below base |
| ActiveWorkout.ElapsedMonotone | src/providers/ActiveWorkoutProvider.tsx:88-95 | elapsed time never runs backwards |
| ActiveWorkout.Stopwatch.constructor | src/providers/ActiveWorkoutProvider.tsx:57-77 | starts blank |
| ActiveWorkout.Stopwatch.ElapsedMs | src/providers/ActiveWorkoutProvider.tsx:88-95 | non-negative in a consistent state |
| ActiveWorkout.Stopwatch.SelectTemplate | src/providers/ActiveWorkoutProvider.tsx:102-111 | chosen, stopped, no start; banked time kept iff same template, else 0; keeps consistency |
| ActiveWorkout.Stopwatch.Start | src/providers/ActiveWorkoutProvider.tsx:114-123 | running from now; banked time kept iff same template; elapsed now = banked |
| ActiveWorkout.Stopwatch.Pause | src/providers/ActiveWorkoutProvider.tsx:125-137 | no-op unless running with a start; else banks max(0, now − start), stops, clears start; elapsed at now unchanged |
| ActiveWorkout.Stopwatch.Resume | src/providers/ActiveWorkoutProvider.tsx:139-143 | no-op with no or empty template or when running; else running from now, banked time kept; elapsed at now unchanged |
| ActiveWorkout.Stopwatch.End | src/providers/ActiveWorkoutProvider.tsx:145-151 | back to blank |
| Fasting.DurationMs | src/lib/fasting.ts:50-57 | 0 with no start; else max(0, end − start), the end being now while fasting |
| Fasting.DurationMonotone | src/lib/fasting.ts:50-57 | a fast's duration never shrinks as time passes |
| Fasting.PartsOf | src/lib/fasting.ts:60-63 | for ms ≥ 0: hours = floor(ms/3600000), days = floor(ms/86400000), minutes below 60 with hours·60 + minutes = whole minutes |
| Fasting.FormatDuration | src/lib/fasting.ts:59-71 | for ms ≥ 0: "Xd Yh" from a day on with Y < 24 and 24X + Y = hours, "Hh Mm" from an hour on, "Mm" below |
| Fasting.Passed | src/lib/fasting.ts:78-82 | counts the thresholds reached: those below reached, the rest not |
| Fasting.Milestones | src/lib/fasting.ts:74-91 | never empty; the early-fast message alone below 8 h; from 8 h one message per threshold reached, in order |
| Fasting.FastingMilestones | src/lib/fasting.ts:74-91 | the pushing method returns `Milestones` |
| Fasting.MilestonesPrefix | src/lib/fasting.ts:78-82 | from 8 h on, a shorter fast's milestones are a prefix of a longer one's |
| Fasting.FastingTracker.StartFast | src/lib/fasting.ts:40-42 | start stored, end cleared, duration 0 at the start |
| Fasting.FastingTracker.EndFast | src/lib/fasting.ts:44-48 | no-op without a start; else the end set (overwriting), after which the duration no longer depends on now |
| TimerPanel.FormatMmSs | src/components/TimerPanel.tsx:15-20 | the count clamped at 0 as `mm:ss`: minutes at least two digits with no zero beyond the padding, minutes·60 + seconds = the clamped count, seconds two digits below 60 |
| TimerPanel.FormatMmSsNonPositive | src/components/TimerPanel.tsx:16 | a count of zero or below shows as "00:00" |
| TimerPanel.OrDefault | src/components/TimerPanel.tsx:175 | `Number(v) \|\| d`: a non-zero number is kept; zero or a non-numeric entry (NaN) gives the fallback; with a non-zero fallback the result is never 0 |
| TimerPanel.Timer.constructor | src/components/TimerPanel.tsx:23-37 | stopped stopwatch at 0, 5-minute countdown, 20/10 s × 8 rounds, round 1, work |
| TimerPanel.Timer.DisplaySeconds | src/components/TimerPanel.tsx:102-105 | countdown: time left, never negative, 0 iff the total is reached; otherwise the count |
| TimerPanel.Timer.Tick | src/components/TimerPanel.tsx:40-46 | one second more while running, nothing else changes |
| TimerPanel.Timer.Settle | src/components/TimerPanel.tsx:49-85 | countdown stops once count ≥ total; tabata at the phase limit resets to 0, work → rest in the same round, rest → stop after the last round or the next round's work; the round grows by at most one, never past `rounds` |
| TimerPanel.Timer.Start | src/components/TimerPanel.tsx:87-91 | running, nothing else changes |
| TimerPanel.Timer.Pause | src/components/TimerPanel.tsx:93 | stopped, nothing else changes |
| TimerPanel.Timer.Reset | src/components/TimerPanel.tsx:95-100 | stopped at 0, round 1, work; mode and settings kept |
| TimerPanel.Timer.SetMode | src/components/TimerPanel.tsx:121-124 | resets, then sets the mode |
| TimerPanel.Timer.SetCountdownMinutes | src/components/TimerPanel.tsx:175 | minutes = value or 1 |
| TimerPanel.Timer.SetWorkSec | src/components/TimerPanel.tsx:193 | work seconds = value or 20 |
| TimerPanel.Timer.SetRestSec | src/components/TimerPanel.tsx:209 | rest seconds = value or 10 |
| TimerPanel.Timer.SetRounds | src/components/TimerPanel.tsx:225 | rounds = value or 8 |
| IconForName.IconKeysDistinct | src/lib/iconForName.tsx:17-36 | the catalogue keys are pairwise distinct |
| IconForName.ByKey | src/lib/iconForName.tsx:36 | none iff no catalogue entry has the key; otherwise that entry's icon |
| IconForName.FirstCategory | src/lib/iconForName.tsx:47-54 | none iff no category from the given one on has a keyword in the name |
| IconForName.FirstCategoryIsFirst | src/lib/iconForName.tsx:47-54 | the first matching category in priority order is the one picked |
| IconForName.ImpliedIconFollowsPriority | src/lib/iconForName.tsx:41-55 | mobility first, then the first matching category of legs > arms > back > chest > glutes > core > cardio > full, else dumbbell |
| IconForName.ImpliedIconCaseInsensitive | src/lib/iconForName.tsx:40 | a name and its lower-cased form get the same icon |
| IconForName.MobilityWins | src/lib/iconForName.tsx:41-46 | a mobility or warm-up keyword wins over every other category |
| IconForName.NoKeywordIsDumbbell | src/lib/iconForName.tsx:55 | no keyword at all gives the dumbbell |
| IconForName.LegStretchIsMobility | src/lib/iconForName.tsx:41-47 | "leg stretch" is mobility although it names the legs |
| IconForName.HammerCurlIsLegs | src/lib/iconForName.tsx:47 | "hammer curl" counts as legs, since "ham" is a substring |
| IconForName.Absent | src/lib/iconForName.tsx:41-54 | a keyword with a letter the name lacks does not match |
| IconForName.IconFor | src/lib/iconForName.tsx:59-68 | the catalogue icon when the key is a catalogue key, the implied icon otherwise |
| IconForName.OverrideWins | src/lib/iconForName.tsx:65-66 | any catalogue key overrides the name |
| ToneLoader.HexDigitValue | src/components/ToneLoader.tsx:16 | a hex digit's value is below 16 |
| ToneLoader.RemoveFirstHash | src/components/ToneLoader.tsx:8 | `replace("#", "")`: without '#' unchanged; otherwise one character shorter |
| ToneLoader.RemoveFirstHashCutsFirst | src/components/ToneLoader.tsx:8 | the '#' removed is the first one: the text before it and the text after it are kept, in place |
| ToneLoader.Doubled | src/components/ToneLoader.tsx:10-15 | twice as long, each digit written twice in place |
| ToneLoader.Channel | src/components/ToneLoader.tsx:17 | `(n >> k) & 255` lies in 0–255 |
| ToneLoader.HexValueSnoc | src/components/ToneLoader.tsx:16 | one more digit multiplies the value by 16 and adds the digit |
| ToneLoader.TwoDigits | src/components/ToneLoader.tsx:16 | two digits are 16·first + second |
| ToneLoader.SixDigits | src/components/ToneLoader.tsx:16-17 | six digits are three two-digit channels, each below 256 |
| ToneLoader.ChannelsOf | src/components/ToneLoader.tsx:17 | shifting and masking a packed value gives its three channels back |
| ToneLoader.HexToRgb | src/components/ToneLoader.tsx:7-18 | the channels are the values of the three digit pairs (short form doubled), each 0–255 |
| ToneLoader.ShortFormDoubles | src/components/ToneLoader.tsx:10-15 | "#rgb" reads like "#rrggbb" |
| ToneLoader.HashOptional | src/components/ToneLoader.tsx:8 | a leading '#' makes no difference |
| ToneLoader.LuminanceBounds | src/components/ToneLoader.tsx:21 | the luminance lies in [0, 1] |
| ToneLoader.ContrastOn | src/components/ToneLoader.tsx:19-23 | black iff luminance > 0.6, white iff ≤ 0.6 |
| ToneLoader.ContrastOfWhiteAndBlack | src/components/ToneLoader.tsx:19-23 | "#ffffff" takes black, "#000000" takes white |

## Left out

- Persistence. What is out:
  - `localStorage` and JSON;
  - the log-store migration (`readStore`) and the warm-up defaulting of `readTemplates`;
  - `safeParse` in `fasting.ts`;
  - storage events;
  - the active-workout persistence effect.

  Each store is the field of its class. `ReadProfile` takes the stored record as a parameter.
- Clock, `Date` and time zones:
  - `Date.now()`, "today" and fresh ids (`uid`, `crypto.randomUUID`) are parameters. A freshness precondition replaces randomness.
  - Local-midnight `Date` arithmetic becomes day numbers: `weeksBetween`, the `bestBefore` window, `onTrackInfo`'s weeks left.
  - Daylight-saving shifts are not modelled. In the source, a fall-back inside the `bestBefore` window can push the boundary day out of it; on day numbers it stays in.
  - `windowByDays` and `byDayVolume` rest on `Date` parsing and `toISOString`, and are not part of this model.
- Fasting times: ISO strings are millisecond numbers. An empty-string start, which is falsy in the source, is not distinguished from a missing one.
- Floating point: NaN, the infinities and rounding error are not modelled. `toFixed`, `toLocaleString` and `Intl` formatting are not modelled either. The `onTrackStatus` message text is left out; the status it carries is modelled.
- Logs.ListSetsAsc: does not model `sortChronoAsc` treating a non-finite `createdAt` as 0, since every timestamp here is an integer.
- ActiveWorkout.ComputeElapsed: does not model the `Number.isFinite(delta)` guard, since times here are finite.
- WeighIns.OnTrackStatus: its contract states the red and green cases outright. Amber, the remaining case, follows from `Classify`.
- JavaScript string semantics:
  - lower-casing is ASCII only;
  - the icon regular expressions are substring tests (the optional "ibility" and "s" suffixes add nothing to a substring match);
  - `Number()` string parsing is an input carried by `ActiveWorkout.Raw`.
- ToneLoader.HexToRgb: requires a well-formed 3- or 6-digit colour. `parseInt`'s leniency on other input is not modelled.
- IconForName.IconFor: a key such as "constructor" that hits `Object.prototype` through `BY_KEY` is not modelled. The lookup covers the catalogue only.
- TimerPanel.OrDefault: entries are whole numbers or non-numeric text (`None`); a fractional entry such as "2.5", which `Number` would keep, is not modelled.
- TimerPanel.Timer.Settle: models one run of the effect after a change. React's batching and the scheduling of re-runs are not modelled. The tick counts whole seconds.
- UI: rendering, routing and `AuthProvider` are not modelled, nor are the DOM writes of `ToneLoader`. The duplicate helpers in `LogClient.tsx`, `TonePicker.tsx` and `WorkoutTimerBanner.tsx` are left out too.
- The 2.2046226218 factor in `SetEntry.tsx` is not part of this model. It is not the exact inverse of 0.45359237.

## Findings

| source | as written | input that shows it | evidently intended | confidence | as-written member | corrected member |
|---|---|---|---|---|---|---|
| src/providers/ActiveWorkoutProvider.tsx:33-34 | `numOrNull` returns `Number(v)` when finite, and `Number(null)` is 0, so `normalize` reads a stored `startedAt: null` back as 0 | the stored blank record `{templateId: null, isRunning: false, startedAt: null, elapsedBeforeMs: 0}` | null stays null, so a stored workout reads back unchanged | high for the function, low impact: `normalize` has no caller in the repository; not executed | ActiveWorkout.NormalizeBlankAsWritten | ActiveWorkout.NormalizeFixedRoundTrip |
