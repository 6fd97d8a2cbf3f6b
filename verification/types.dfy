/** Records shared between the stores and the queries (src/lib/types.ts).
    An ISO calendar date `YYYY-MM-DD` is represented by its day number:
    for such fixed-width strings lexicographic order is chronological
    order, which is the numeric order of day numbers. Timestamps are
    integer milliseconds since the epoch. */
module Types {
  import opened Seqs

  /** One logged set of an exercise; `createdAt` breaks ties within a day. */
  datatype SetEntryLog = SetEntryLog(id: string, isoDate: int, weightKg: real, reps: real, createdAt: int)

  /** A logged set tagged with its exercise, as a session summary lists it. */
  datatype SavedSet = SavedSet(exerciseId: string, isoDate: int, weightKg: real, reps: real)

  /** The on-track traffic light. */
  datatype TrackStatus = Green | Amber | Red

  datatype WeighIn = WeighIn(isoDate: int, weightKg: real, note: Option<string>)

  /** The weight, reps and date of a reference set (gatekeeper.ts `LastBest`,
      also the shape `bestBefore` in logs.ts returns). */
  datatype LastBest = LastBest(weightKg: real, reps: real, isoDate: int)
}
