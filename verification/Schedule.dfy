/** Schedules as the program uses them: `Next(t)` is the first slot strictly after t, if there is one. */
module Schedule {
  import opened Common

  type Next = Time -> Time

  /** What the cron library promises of Next for any expression it accepts: the first slot strictly
      after t, or the zero time when its search finds none. */
  ghost predicate IsCron(next: Next) {
    && (forall t :: ZERO_TIME <= t ==> next(t) == ZERO_TIME || t < next(t))
    && (forall t, u :: ZERO_TIME <= t <= u < next(t) ==> next(u) == next(t))
  }

  /** The search from t finds no slot. */
  predicate Dry(next: Next, t: Time) {
    next(t) == ZERO_TIME
  }

  /** A schedule that always has a next slot, such as that of the weekly digest. */
  ghost predicate IsSchedule(next: Next) {
    && (forall t :: t < next(t))
    && (forall t, u :: t <= u < next(t) ==> next(u) == next(t))
  }

  predicate IsSlot(next: Next, s: Time) {
    next(s - 1) == s
  }

  /** Next(t) is the least slot strictly after t. */
  lemma NextIsLeastSlot(next: Next, t: Time, s: Time)
    requires IsSchedule(next)
    ensures t < next(t) && IsSlot(next, next(t))
    ensures IsSlot(next, s) && t < s ==> next(t) <= s
  {
    assert next(next(t) - 1) == next(t);
    assert t <= s - 1 < next(t) ==> next(s - 1) == next(t);
  }

  /** The same for any expression, where the search finds a slot at all. */
  lemma FoundIsLeastSlot(next: Next, t: Time, s: Time)
    requires IsCron(next) && ZERO_TIME <= t && !Dry(next, t)
    ensures t < next(t) && IsSlot(next, next(t))
    ensures IsSlot(next, s) && t < s ==> next(t) <= s
  {
    assert next(next(t) - 1) == next(t);
    assert t <= s - 1 < next(t) ==> next(s - 1) == next(t);
  }
}
