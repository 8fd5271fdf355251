/** The weekly digest: a mark, checked against the schedule at whatever times the sweeper runs. */
module Digest {
  import opened Common
  import opened Schedule

  predicate DigestDue(next: Next, mark: Time, now: Time) {
    next(mark) <= now
  }

  /** The mark after a series of checks, starting from the construction time. */
  function MarkAfter(next: Next, start: Time, checks: seq<Time>): Time
    decreases |checks|
  {
    if checks == [] then start
    else
      var n := |checks| - 1;
      var mark := MarkAfter(next, start, checks[..n]);
      if DigestDue(next, mark, checks[n]) then checks[n] else mark
  }

  /** The digests sent: each with the mark it started from and the check that sent it. */
  function Sent(next: Next, start: Time, checks: seq<Time>): seq<(Time, Time)>
    decreases |checks|
  {
    if checks == [] then []
    else
      var n := |checks| - 1;
      var mark := MarkAfter(next, start, checks[..n]);
      Sent(next, start, checks[..n]) + if DigestDue(next, mark, checks[n]) then [(mark, checks[n])] else []
  }

  ghost predicate CheckTimes(start: Time, checks: seq<Time>) {
    && (forall i :: 0 <= i < |checks| ==> start <= checks[i])
    && (forall i, j :: 0 <= i < j < |checks| ==> checks[i] <= checks[j])
  }

  function Last(start: Time, checks: seq<Time>): Time {
    if checks == [] then start else checks[|checks| - 1]
  }

  /** The number of slots in (a, b]. */
  ghost function Slots(next: Next, a: Time, b: Time): nat
    requires IsSchedule(next)
    decreases if a < b then b - a else 0
  {
    if next(a) > b then 0 else 1 + Slots(next, next(a), b)
  }

  lemma {:induction false} SlotsSplit(next: Next, a: Time, b: Time, c: Time)
    requires IsSchedule(next) && a <= b <= c
    ensures Slots(next, a, c) == Slots(next, a, b) + Slots(next, b, c)
    decreases b - a
  {
    if next(a) <= b {
      SlotsSplit(next, next(a), b, c);
    } else {
      assert next(b) == next(a);
    }
  }

  /** Some check falls in [lo, hi). */
  ghost predicate HasCheck(checks: seq<Time>, lo: Time, hi: Time) {
    exists c :: c in checks && lo <= c < hi
  }

  /** Between any slot and the slot after it, if both have passed, there was a check. */
  ghost predicate Covered(next: Next, start: Time, checks: seq<Time>) {
    forall s :: IsSlot(next, s) && start < s && next(s) <= Last(start, checks) ==> HasCheck(checks, s, next(s))
  }

  lemma HasCheckAppend(checks: seq<Time>, now: Time, lo: Time, hi: Time)
    ensures HasCheck(checks + [now], lo, hi) <==> HasCheck(checks, lo, hi) || lo <= now < hi
  {
    assert now in checks + [now];
    if HasCheck(checks, lo, hi) {
      var c :| c in checks && lo <= c < hi;
      assert c in checks + [now];
    }
  }

  lemma CheckTimesPrefix(start: Time, checks: seq<Time>, now: Time)
    requires CheckTimes(start, checks + [now])
    ensures CheckTimes(start, checks) && Last(start, checks) <= now && Last(start, checks + [now]) == now
    ensures forall c :: c in checks ==> start <= c <= Last(start, checks)
  {
    var all := checks + [now];
    assert all[..|checks|] == checks && all[|checks|] == now;
    assert forall i :: 0 <= i < |checks| ==> checks[i] == all[i];
  }

  /** What the marks keep: no slot is pending after the last check, and the mark is a check time. */
  lemma {:induction false} MarkInvariant(next: Next, start: Time, checks: seq<Time>)
    requires IsSchedule(next) && CheckTimes(start, checks)
    ensures var mark := MarkAfter(next, start, checks);
            && start <= mark <= Last(start, checks)
            && Last(start, checks) < next(mark)
            && (mark == start || mark in checks)
    decreases |checks|
  {
    if checks != [] {
      var n := |checks| - 1;
      MarkInvariant(next, start, checks[..n]);
      assert Last(start, checks[..n]) <= checks[n];
      assert checks[..n] <= checks;
    }
  }

  ghost predicate Disjoint(sent: seq<(Time, Time)>, next: Next, start: Time, mark: Time)
    requires IsSchedule(next)
  {
    && (forall k :: 0 <= k < |sent| ==> start <= sent[k].0 < next(sent[k].0) <= sent[k].1 <= mark && Slots(next, sent[k].0, sent[k].1) >= 1)
    && (forall k, l :: 0 <= k < l < |sent| ==> sent[k].1 <= sent[l].0)
  }

  /** Every digest consumes at least one slot, all of them after construction and after whatever
      earlier digests consumed. */
  lemma {:induction false} DigestsConsumeFreshSlots(next: Next, start: Time, checks: seq<Time>)
    requires IsSchedule(next) && CheckTimes(start, checks)
    ensures Disjoint(Sent(next, start, checks), next, start, MarkAfter(next, start, checks))
    decreases |checks|
  {
    if checks != [] {
      var n := |checks| - 1;
      var prev, now := checks[..n], checks[n];
      assert prev + [now] == checks;
      CheckTimesPrefix(start, prev, now);
      DigestsConsumeFreshSlots(next, start, prev);
      MarkInvariant(next, start, prev);
      DisjointAppend(Sent(next, start, prev), next, start, MarkAfter(next, start, prev), now);
    }
  }

  lemma DisjointAppend(sent: seq<(Time, Time)>, next: Next, start: Time, mark: Time, now: Time)
    requires IsSchedule(next) && Disjoint(sent, next, start, mark) && start <= mark
    ensures next(mark) <= now ==> Disjoint(sent + [(mark, now)], next, start, now)
  {
    if next(mark) <= now {
      var all := sent + [(mark, now)];
      NextIsLeastSlot(next, mark, mark);
      forall k | 0 <= k < |all|
        ensures start <= all[k].0 < next(all[k].0) <= all[k].1 <= now && Slots(next, all[k].0, all[k].1) >= 1
      {
        assert k < |sent| ==> all[k] == sent[k];
      }
      forall k, l | 0 <= k < l < |all| ensures all[k].1 <= all[l].0 {
        assert all[k] == sent[k];
        assert l < |sent| ==> all[l] == sent[l];
      }
    }
  }

  /** A slot before the only slot of (mark, now] has its check. */
  lemma CoveredSlot(next: Next, start: Time, checks: seq<Time>, now: Time, s: Time)
    requires IsSchedule(next) && CheckTimes(start, checks) && Covered(next, start, checks)
    requires IsSlot(next, s) && start < s && next(s) <= now && next(next(MarkAfter(next, start, checks))) > now
    ensures HasCheck(checks, s, next(s))
  {
    var mark := MarkAfter(next, start, checks);
    MarkInvariant(next, start, checks);
    if Last(start, checks) < next(s) {
      NextIsLeastSlot(next, s, s);
      NextIsLeastSlot(next, mark, next(s));
      NextIsLeastSlot(next, next(mark), next(s));
      NextIsLeastSlot(next, mark, s);
      assert next(s) == next(mark) && s <= mark;
      assert mark in checks;
    }
  }

  lemma CoveredPrefix(next: Next, start: Time, checks: seq<Time>, now: Time)
    requires Covered(next, start, checks + [now]) && CheckTimes(start, checks + [now])
    ensures Covered(next, start, checks)
  {
    CheckTimesPrefix(start, checks, now);
    forall s | IsSlot(next, s) && start < s && next(s) <= Last(start, checks) ensures HasCheck(checks, s, next(s)) {
      HasCheckAppend(checks, now, s, next(s));
    }
  }

  /** Two slots in one gap between checks leave the first of them uncovered. */
  lemma GapUncovered(next: Next, start: Time, checks: seq<Time>, now: Time)
    requires IsSchedule(next) && CheckTimes(start, checks + [now])
    requires next(next(MarkAfter(next, start, checks))) <= now
    ensures !Covered(next, start, checks + [now])
  {
    CheckTimesPrefix(start, checks, now);
    MarkInvariant(next, start, checks);
    var mark := MarkAfter(next, start, checks);
    NextIsLeastSlot(next, mark, mark);
    HasCheckAppend(checks, now, next(mark), next(next(mark)));
  }

  /** A check that sends: all slots stay covered exactly when it consumes a single slot. */
  lemma CoveredStep(next: Next, start: Time, checks: seq<Time>, now: Time)
    requires IsSchedule(next) && CheckTimes(start, checks + [now])
    ensures Covered(next, start, checks + [now]) <==> Covered(next, start, checks) && next(next(MarkAfter(next, start, checks))) > now
  {
    CheckTimesPrefix(start, checks, now);
    if Covered(next, start, checks + [now]) {
      CoveredPrefix(next, start, checks, now);
    }
    if next(next(MarkAfter(next, start, checks))) <= now {
      GapUncovered(next, start, checks, now);
    } else if Covered(next, start, checks) {
      forall s | IsSlot(next, s) && start < s && next(s) <= now ensures HasCheck(checks + [now], s, next(s)) {
        CoveredSlot(next, start, checks, now, s);
        HasCheckAppend(checks, now, s, next(s));
      }
    }
  }

  /** At most one digest per slot that has passed, for any check times; and exactly one per slot if
      and only if some check fell between every two consecutive slots. */
  lemma {:induction false} DigestOncePerSlot(next: Next, start: Time, checks: seq<Time>)
    requires IsSchedule(next) && CheckTimes(start, checks)
    ensures |Sent(next, start, checks)| <= Slots(next, start, Last(start, checks))
    ensures |Sent(next, start, checks)| == Slots(next, start, Last(start, checks)) <==> Covered(next, start, checks)
    decreases |checks|
  {
    if checks == [] {
      assert Slots(next, start, start) == 0;
      assert forall s :: start < s ==> start < next(s);
    } else {
      var n := |checks| - 1;
      var prev, now := checks[..n], checks[n];
      assert prev + [now] == checks;
      var mark := MarkAfter(next, start, prev);
      CheckTimesPrefix(start, prev, now);
      DigestOncePerSlot(next, start, prev);
      MarkInvariant(next, start, prev);
      SlotsSplit(next, start, mark, Last(start, prev));
      SlotsSplit(next, start, mark, now);
      CoveredStep(next, start, prev, now);
      assert Slots(next, mark, Last(start, prev)) == 0;
      if now < next(mark) {
        assert next(next(mark)) > now;
      }
    }
  }

  /** Slots that share a gap between checks share a digest: with a slot at every instant and one
      check at time 2, one digest covers the slots 1 and 2. */
  lemma SharedGap()
    ensures var next: Next := t => t + 1;
            IsSchedule(next) && CheckTimes(0, [2]) && |Sent(next, 0, [2])| == 1 && Slots(next, 0, 2) == 2
  {
    var next: Next := t => t + 1;
    assert [2][..0] == [] && MarkAfter(next, 0, []) == 0 && Sent(next, 0, []) == [];
    assert Slots(next, 2, 2) == 0 && Slots(next, 1, 2) == 1;
  }
}
