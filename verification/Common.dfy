/** Vocabulary shared by every component: levels, verdicts, times and optional values. */
module Common {

  datatype Option<+T> = None | Some(value: T)

  /** Nanoseconds on the UTC clock. ZERO_TIME stands for Go's zero `time.Time`. */
  type Time = int

  const ZERO_TIME: Time := 0

  /** Drill levels, in ascending order of strength. */
  datatype Level = L1 | L2 | L3

  /** The outcome taxonomy of a check, a level that executed, and a run. */
  datatype Verdict = Pass | Fail | Error

  /** A level either executed to a verdict or was skipped. */
  datatype Outcome = Ran(verdict: Verdict) | Skipped
}
