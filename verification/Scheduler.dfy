/** The scheduler loop's bookkeeping: which jobs are due, when they fire next, how long to wait. */
module Scheduler {
  import opened Common
  import opened Schedule

  /** A job's schedule, jitter bound, next fire, and the slot that fire belongs to. */
  datatype JobState = JobState(next: Next, jitter: int, fire: Time, slot: Time)

  /** A jitter draw: a delay up to the bound, none when the bound is not positive. */
  predicate Draw(jitter: int, d: int) {
    if jitter <= 0 then d == 0 else 0 <= d <= jitter
  }

  function Advance(j: JobState, now: Time, d: int): JobState {
    j.(fire := j.next(now) + d, slot := j.next(now))
  }

  /** One pass of the loop over one job. */
  function Tick(j: JobState, now: Time, d: int): JobState {
    if j.fire <= now then Advance(j, now, d) else j
  }

  /** The running minimum of the source: the zero time stands for "none yet". */
  function Soonest(fires: seq<Time>): Time {
    if fires == [] then ZERO_TIME
    else
      var sofar := Soonest(fires[..|fires| - 1]);
      var f := fires[|fires| - 1];
      if sofar == ZERO_TIME || f < sofar then f else sofar
  }

  lemma SoonestNext(fires: seq<Time>, f: Time)
    ensures Soonest(fires + [f]) == if Soonest(fires) == ZERO_TIME || f < Soonest(fires) then f else Soonest(fires)
  {
    assert (fires + [f])[..|fires|] == fires;
  }

  lemma {:induction false} SoonestIsMinimum(fires: seq<Time>)
    requires forall i :: 0 <= i < |fires| ==> ZERO_TIME < fires[i]
    ensures fires == [] ==> Soonest(fires) == ZERO_TIME
    ensures fires != [] ==> Soonest(fires) in fires && forall i :: 0 <= i < |fires| ==> Soonest(fires) <= fires[i]
    decreases |fires|
  {
    if fires != [] {
      SoonestIsMinimum(fires[..|fires| - 1]);
      assert forall f :: f in fires[..|fires| - 1] ==> f in fires;
    }
  }

  /** The sentinel is why positive fires matter: a zero fire makes the pass forget every fire before it. */
  lemma {:induction false} ZeroFireHidesTheOthers(hidden: seq<Time>, rest: seq<Time>)
    requires forall i :: 0 <= i < |hidden| ==> ZERO_TIME <= hidden[i]
    ensures Soonest(hidden + [ZERO_TIME] + rest) == Soonest(rest)
    decreases |rest|
  {
    if rest == [] {
      SoonestNext(hidden, ZERO_TIME);
      SoonestIsNatural(hidden);
      assert hidden + [ZERO_TIME] + rest == hidden + [ZERO_TIME];
    } else {
      var n := |rest| - 1;
      ZeroFireHidesTheOthers(hidden, rest[..n]);
      SoonestNext(hidden + [ZERO_TIME] + rest[..n], rest[n]);
      SoonestNext(rest[..n], rest[n]);
      assert hidden + [ZERO_TIME] + rest == (hidden + [ZERO_TIME] + rest[..n]) + [rest[n]];
      assert rest == rest[..n] + [rest[n]];
    }
  }

  lemma {:induction false} SoonestIsNatural(fires: seq<Time>)
    requires forall i :: 0 <= i < |fires| ==> ZERO_TIME <= fires[i]
    ensures ZERO_TIME <= Soonest(fires)
    decreases |fires|
  {
    if fires != [] {
      SoonestIsNatural(fires[..|fires| - 1]);
    }
  }

  /** The minimum reads as "none yet" exactly when there are no fires or the last one is zero. */
  lemma SoonestReadsNone(fires: seq<Time>)
    requires forall i :: 0 <= i < |fires| ==> ZERO_TIME <= fires[i]
    ensures Soonest(fires) == ZERO_TIME <==> fires == [] || fires[|fires| - 1] == ZERO_TIME
  {
    if fires != [] {
      SoonestIsNatural(fires[..|fires| - 1]);
    }
  }

  /** A job in the scheduler, with `fire` advanced in place. */
  class Job {
    const drill: string
    const schedule: Next
    const jitter: int
    var fire: Time
    ghost var slot: Time

    ghost function View(): JobState
      reads this
    {
      JobState(schedule, jitter, fire, slot)
    }

    constructor (drill: string, schedule: Next, jitter: int)
      ensures this.drill == drill && this.schedule == schedule && this.jitter == jitter
    {
      this.drill, this.schedule, this.jitter := drill, schedule, jitter;
      this.fire, this.slot := ZERO_TIME, ZERO_TIME;
    }
  }

  predicate NoRepeats(jobs: seq<Job>) {
    forall i, j :: 0 <= i < j < |jobs| ==> jobs[i] != jobs[j]
  }

  ghost function Views(jobs: seq<Job>): (r: seq<JobState>)
    reads jobs
    ensures |r| == |jobs| && forall i :: 0 <= i < |jobs| ==> r[i] == jobs[i].View()
  {
    if jobs == [] then [] else Views(jobs[..|jobs| - 1]) + [jobs[|jobs| - 1].View()]
  }

  function FireTimes(js: seq<JobState>): (r: seq<Time>)
    ensures |r| == |js|
  {
    seq(|js|, i requires 0 <= i < |js| => js[i].fire)
  }

  /** A legal draw for each of the first jobs. */
  predicate Draws(before: seq<JobState>, draws: seq<int>) {
    |draws| <= |before| && forall i :: 0 <= i < |draws| ==> Draw(before[i].jitter, draws[i])
  }

  /** The jobs once a pass has visited as many of them as it has made draws. */
  function Visited(before: seq<JobState>, now: Time, draws: seq<int>): (r: seq<JobState>)
    requires |draws| <= |before|
    ensures |r| == |before|
  {
    seq(|before|, i requires 0 <= i < |before| => if i < |draws| then Tick(before[i], now, draws[i]) else before[i])
  }

  /** The soonest new fire among the jobs visited. */
  function SoonestSoFar(before: seq<JobState>, now: Time, draws: seq<int>): Time
    requires |draws| <= |before|
  {
    Soonest(FireTimes(Visited(before, now, draws)[..|draws|]))
  }

  lemma VisitedNext(before: seq<JobState>, now: Time, draws: seq<int>, d: int)
    requires |draws| < |before|
    ensures var k := |draws|;
            var fire := Tick(before[k], now, d).fire;
            var sofar := SoonestSoFar(before, now, draws);
            && Visited(before, now, draws)[k] == before[k]
            && Visited(before, now, draws + [d]) == Visited(before, now, draws)[k := Tick(before[k], now, d)]
            && SoonestSoFar(before, now, draws + [d]) == if sofar == ZERO_TIME || fire < sofar then fire else sofar
  {
    var k, after := |draws|, Visited(before, now, draws + [d]);
    assert after == Visited(before, now, draws)[k := Tick(before[k], now, d)];
    assert after[..k + 1] == Visited(before, now, draws)[..k] + [Tick(before[k], now, d)];
    var fires := FireTimes(Visited(before, now, draws)[..k]);
    assert FireTimes(after[..k + 1]) == fires + [Tick(before[k], now, d).fire];
    SoonestNext(fires, Tick(before[k], now, d).fire);
  }

  /** The jobs at the positions whose fire has come, in order. */
  function DueAt<T>(jobs: seq<T>, before: seq<JobState>, now: Time): seq<T>
    requires |jobs| == |before|
  {
    if jobs == [] then []
    else
      var n := |jobs| - 1;
      DueAt(jobs[..n], before[..n], now) + if before[n].fire <= now then [jobs[n]] else []
  }

  /** Those of the first k jobs. */
  function DueSoFar<T>(jobs: seq<T>, before: seq<JobState>, now: Time, k: nat): seq<T>
    requires k <= |jobs| == |before|
  {
    DueAt(jobs[..k], before[..k], now)
  }

  lemma DueSoFarNext<T>(jobs: seq<T>, before: seq<JobState>, now: Time, k: nat)
    requires k < |jobs| == |before|
    ensures DueSoFar(jobs, before, now, k + 1) == DueSoFar(jobs, before, now, k) + if before[k].fire <= now then [jobs[k]] else []
  {
    assert jobs[..k + 1][..k] == jobs[..k] && before[..k + 1][..k] == before[..k];
  }

  class Scheduler {
    var jobs: seq<Job>

    constructor ()
      ensures jobs == []
    {
      jobs := [];
    }

    method Jitter(max: int) returns (d: int)
      ensures Draw(max, d) && 0 <= d && (max <= 0 ==> d == 0) && (max > 0 ==> d <= max)
    {
      if max <= 0 {
        return 0;
      }
      d :| 0 <= d <= max;
    }

    method AdvanceJob(j: Job, now: Time) returns (ghost d: int)
      modifies j
      ensures Draw(j.jitter, d) && j.View() == Advance(old(j.View()), now, d)
    {
      var delay := Jitter(j.jitter);
      j.fire := j.schedule(now) + delay;
      j.slot := j.schedule(now);
      d := delay;
    }

    /** Register a job for a drill with a schedule: its first fire is the next slot plus a draw. */
    method Add(drill: string, schedule: Next, jitter: int, now: Time) returns (j: Job, ghost d: int)
      requires NoRepeats(jobs)
      modifies this
      ensures fresh(j) && jobs == old(jobs) + [j] && NoRepeats(jobs)
      ensures Draw(jitter, d) && j.View() == JobState(schedule, jitter, schedule(now) + d, schedule(now))
    {
      j := new Job(drill, schedule, jitter);
      d := AdvanceJob(j, now);
      jobs := jobs + [j];
    }

    /** One job of the pass. */
    method Visit(j: Job, now: Time) returns (fired: bool, ghost d: int)
      modifies j
      ensures fired <==> old(j.fire) <= now
      ensures fired ==> j.slot == j.schedule(now) && Draw(j.jitter, j.fire - j.schedule(now))
      ensures !fired ==> j.View() == old(j.View())
      ensures Draw(j.jitter, d) && j.View() == Tick(old(j.View()), now, d)
    {
      fired, d := j.fire <= now, if j.jitter <= 0 then 0 else j.jitter;
      if fired {
        d := AdvanceJob(j, now);
      }
    }

    /** Exactly the due jobs, once each: every one of them advanced to the slot its schedule names
        next, plus a draw; the others untouched; and the soonest of the new fires. */
    method Due(now: Time) returns (ready: seq<Job>, soonest: Time, ghost draws: seq<int>)
      requires NoRepeats(jobs)
      modifies jobs
      ensures |draws| == |jobs| && Draws(old(Views(jobs)), draws)
      ensures Views(jobs) == Visited(old(Views(jobs)), now, draws)
      ensures ready == DueAt(jobs, old(Views(jobs)), now) && NoRepeats(ready)
      ensures forall j :: j in ready <==> IsDue(jobs, old(Views(jobs)), now, j)
      ensures forall i :: 0 <= i < |jobs| ==> MovedOn(old(Views(jobs))[i], jobs[i].View(), now)
      ensures soonest == Soonest(FireTimes(Views(jobs)))
    {
      ghost var before := Views(jobs);
      ready, soonest, draws := VisitAll(now);
      DueAtExactly(jobs, before, now);
      VisitedExactly(before, now, draws);
    }

    /** The loop over the jobs. */
    method VisitAll(now: Time) returns (ready: seq<Job>, soonest: Time, ghost draws: seq<int>)
      requires NoRepeats(jobs)
      modifies jobs
      ensures |draws| == |jobs| && Draws(old(Views(jobs)), draws)
      ensures Views(jobs) == Visited(old(Views(jobs)), now, draws)
      ensures ready == DueAt(jobs, old(Views(jobs)), now)
      ensures soonest == Soonest(FireTimes(Views(jobs)))
    {
      ready, soonest, draws := [], ZERO_TIME, [];
      ghost var before := Views(jobs);
      var k := 0;
      assert Visited(before, now, []) == before;
      while k < |jobs|
        invariant 0 <= k == |draws| <= |jobs| && Draws(before, draws)
        invariant Views(jobs) == Visited(before, now, draws)
        invariant ready == DueSoFar(jobs, before, now, k)
        invariant soonest == SoonestSoFar(before, now, draws)
      {
        var fired, fire;
        fired, fire, draws := VisitNext(k, now, before, draws);
        DueSoFarNext(jobs, before, now, k);
        ready := if fired then ready + [jobs[k]] else ready;
        soonest := if soonest == ZERO_TIME || fire < soonest then fire else soonest;
        k := k + 1;
      }
      SoFarIsAll(jobs, before, now, draws);
    }

    /** Visiting the next job leaves the others as they are. */
    method VisitNext(k: nat, now: Time, ghost before: seq<JobState>, ghost draws: seq<int>)
      returns (fired: bool, fire: Time, ghost more: seq<int>)
      requires NoRepeats(jobs) && k == |draws| < |jobs| && Draws(before, draws) && Views(jobs) == Visited(before, now, draws)
      modifies jobs
      ensures |more| == k + 1 && Draws(before, more) && Views(jobs) == Visited(before, now, more)
      ensures fired <==> before[k].fire <= now
      ensures var sofar := SoonestSoFar(before, now, draws);
              SoonestSoFar(before, now, more) == if sofar == ZERO_TIME || fire < sofar then fire else sofar
    {
      ghost var was := Views(jobs);
      ghost var d;
      assert was[k] == before[k];
      fired, d := Visit(jobs[k], now);
      fire := jobs[k].fire;
      more := draws + [d];
      VisitedNext(before, now, draws, d);
      assert Views(jobs) == was[k := Tick(was[k], now, d)];
    }
  }

  /** Job j stands at a position whose fire has come. */
  ghost predicate IsDue(jobs: seq<Job>, before: seq<JobState>, now: Time, j: Job)
    requires |jobs| == |before|
  {
    exists i :: 0 <= i < |jobs| && jobs[i] == j && before[i].fire <= now
  }

  /** A due job has its next slot, and a fire a draw behind it; any other is as it was. */
  ghost predicate MovedOn(before: JobState, after: JobState, now: Time) {
    if before.fire <= now
    then after.slot == before.next(now) && Draw(before.jitter, after.fire - before.next(now)) && after.next == before.next && after.jitter == before.jitter
    else after == before
  }

  lemma IsDueNext(jobs: seq<Job>, before: seq<JobState>, now: Time, j: Job)
    requires |jobs| == |before| > 0
    ensures var n := |jobs| - 1;
            IsDue(jobs, before, now, j) <==> IsDue(jobs[..n], before[..n], now, j) || (jobs[n] == j && before[n].fire <= now)
  {
    var n := |jobs| - 1;
    if IsDue(jobs[..n], before[..n], now, j) {
      var i :| 0 <= i < n && jobs[..n][i] == j && before[..n][i].fire <= now;
      assert jobs[i] == j && before[i].fire <= now;
    }
    if i :| 0 <= i < n && jobs[i] == j && before[i].fire <= now {
      assert jobs[..n][i] == j && before[..n][i].fire <= now;
    }
  }

  lemma NoRepeatsAppend(jobs: seq<Job>, j: Job)
    requires NoRepeats(jobs) && j !in jobs
    ensures NoRepeats(jobs + [j])
  {
  }

  lemma {:induction false} DueAtExactly(jobs: seq<Job>, before: seq<JobState>, now: Time)
    requires |jobs| == |before| && NoRepeats(jobs)
    ensures NoRepeats(DueAt(jobs, before, now))
    ensures forall j :: j in DueAt(jobs, before, now) <==> IsDue(jobs, before, now, j)
    decreases |jobs|
  {
    if jobs != [] {
      var n := |jobs| - 1;
      var ready := DueAt(jobs[..n], before[..n], now);
      DueAtExactly(jobs[..n], before[..n], now);
      forall j | j in ready ensures j != jobs[n] {
        assert IsDue(jobs[..n], before[..n], now, j);
        var i :| 0 <= i < n && jobs[..n][i] == j && before[..n][i].fire <= now;
        assert jobs[i] == j;
      }
      NoRepeatsAppend(ready, jobs[n]);
      forall j ensures j in DueAt(jobs, before, now) <==> IsDue(jobs, before, now, j) {
        IsDueNext(jobs, before, now, j);
      }
    }
  }

  lemma VisitedExactly(before: seq<JobState>, now: Time, draws: seq<int>)
    requires |before| == |draws| && Draws(before, draws)
    ensures forall i :: 0 <= i < |before| ==> MovedOn(before[i], Visited(before, now, draws)[i], now)
  {
    forall i | 0 <= i < |before| ensures MovedOn(before[i], Visited(before, now, draws)[i], now) {
      assert Visited(before, now, draws)[i] == Tick(before[i], now, draws[i]);
    }
  }

  lemma SoFarIsAll<T>(jobs: seq<T>, before: seq<JobState>, now: Time, draws: seq<int>)
    requires |jobs| == |before| == |draws|
    ensures DueSoFar(jobs, before, now, |jobs|) == DueAt(jobs, before, now)
    ensures SoonestSoFar(before, now, draws) == Soonest(FireTimes(Visited(before, now, draws)))
  {
    assert jobs[..|jobs|] == jobs && before[..|jobs|] == before;
    assert Visited(before, now, draws)[..|draws|] == Visited(before, now, draws);
  }

  // ---- what the loop relies on ----

  /** The job is due and its schedule has no slot to offer. */
  predicate RunsDry(j: JobState, now: Time) {
    j.fire <= now && Dry(j.next, now)
  }

  /** Every fire lies ahead, and `wake` is the first of them: the wait is positive, so the loop does
      not spin, and it ends when the next job is due. */
  predicate Punctual(fires: seq<Time>, now: Time, wake: Time) {
    fires != [] ==> now < wake && wake in fires && forall i :: 0 <= i < |fires| ==> wake <= fires[i]
  }

  lemma FireAfterPass(j: JobState, now: Time, d: int)
    requires IsCron(j.next) && Draw(j.jitter, d) && ZERO_TIME <= now
    ensures var fire := Tick(j, now, d).fire;
            && ZERO_TIME <= fire
            && (RunsDry(j, now) ==> fire == ZERO_TIME + d)
            && (!RunsDry(j, now) ==> now < fire)
  {
    if j.fire <= now && !Dry(j.next, now) {
      FoundIsLeastSlot(j.next, now, now);
    }
  }

  /** For any schedules the program accepts, one pass leaves every fire in the future and returns the
      exact wake-up if and only if no due job has a dry schedule. The wake-up reads as "no jobs" if
      and only if there are none or the last one ran dry and drew no jitter. (Jitter is bounded by
      the longest duration, 292 years, and the clock is past the year 292.) */
  lemma DueProgress(before: seq<JobState>, now: Time, draws: seq<int>, t: Time)
    requires |before| == |draws| && Draws(before, draws) && ZERO_TIME <= now
    requires forall i :: 0 <= i < |before| ==> IsCron(before[i].next) && before[i].jitter <= now
    ensures var fires := FireTimes(Visited(before, now, draws));
            var wake := Soonest(fires);
            && ((forall i :: 0 <= i < |fires| ==> now < fires[i]) <==> forall i :: 0 <= i < |before| ==> !RunsDry(before[i], now))
            && (Punctual(fires, now, wake) <==> forall i :: 0 <= i < |before| ==> !RunsDry(before[i], now))
            && ((forall i :: 0 <= i < |before| ==> !RunsDry(before[i], now)) ==>
                  ((exists i :: 0 <= i < |fires| && fires[i] <= t) <==> before != [] && wake <= t))
            && (wake == ZERO_TIME <==> before == [] || (RunsDry(before[|before| - 1], now) && draws[|before| - 1] == 0))
  {
    var fires := FireTimes(Visited(before, now, draws));
    forall i | 0 <= i < |before|
      ensures fires[i] == Tick(before[i], now, draws[i]).fire
      ensures ZERO_TIME <= fires[i] && (now < fires[i] <==> !RunsDry(before[i], now))
      ensures RunsDry(before[i], now) ==> fires[i] == ZERO_TIME + draws[i]
    {
      FireAfterPass(before[i], now, draws[i]);
    }
    SoonestReadsNone(fires);
    if forall i :: 0 <= i < |fires| ==> now < fires[i] {
      SoonestIsMinimum(fires);
    }
  }

  // ---- a job over a whole run ----

  /** One pass of the loop as a job sees it: the clock reading and the draw it would use. */
  datatype Pass = Pass(now: Time, d: int)

  function RunJob(j: JobState, passes: seq<Pass>): JobState
    decreases |passes|
  {
    if passes == [] then j
    else Tick(RunJob(j, passes[..|passes| - 1]), passes[|passes| - 1].now, passes[|passes| - 1].d)
  }

  /** The slots the job was dispatched for, with the time of each dispatch. */
  function Dispatches(j: JobState, passes: seq<Pass>): seq<(Time, Time)>
    decreases |passes|
  {
    if passes == [] then []
    else
      var n := |passes| - 1;
      var at := RunJob(j, passes[..n]);
      Dispatches(j, passes[..n]) + if at.fire <= passes[n].now then [(at.slot, passes[n].now)] else []
  }

  ghost predicate Clock(start: Time, passes: seq<Pass>, jitter: int) {
    && (forall i :: 0 <= i < |passes| ==> start <= passes[i].now && Draw(jitter, passes[i].d))
    && (forall i, j :: 0 <= i < j < |passes| ==> passes[i].now <= passes[j].now)
  }

  function LastNow(start: Time, passes: seq<Pass>): Time {
    if passes == [] then start else passes[|passes| - 1].now
  }

  ghost predicate Ordered(ds: seq<(Time, Time)>, start: Time, next: Next) {
    && (forall k :: 0 <= k < |ds| ==> start < ds[k].0 <= ds[k].1 && IsSlot(next, ds[k].0))
    && (forall k, l :: 0 <= k < l < |ds| ==> ds[k].1 < ds[l].0)
  }

  /** s is the first slot after t. */
  ghost predicate FirstAfter(next: Next, t: Time, s: Time) {
    t < s && IsSlot(next, s) && forall u :: IsSlot(next, u) && t < u ==> s <= u
  }

  /** The time a dispatch follows: the dispatch before it, or the registration. */
  function Since(ds: seq<(Time, Time)>, start: Time, k: nat): Time
    requires k <= |ds|
  {
    if k == 0 then start else ds[k - 1].1
  }

  /** No slot is left out: each dispatch is for the first slot after the one before. */
  ghost predicate Gapless(ds: seq<(Time, Time)>, start: Time, next: Next) {
    forall k :: 0 <= k < |ds| ==> FirstAfter(next, Since(ds, start, k), ds[k].0)
  }

  /** The slot ahead is the first after the last dispatch, and the fire is that slot plus a draw. */
  ghost predicate JobOk(ds: seq<(Time, Time)>, at: JobState, start: Time, last: Time) {
    && IsCron(at.next) && FirstAfter(at.next, Since(ds, start, |ds|), at.slot) && Draw(at.jitter, at.fire - at.slot)
    && (ds != [] ==> ds[|ds| - 1].1 <= last)
  }

  lemma OrderedAppend(ds: seq<(Time, Time)>, start: Time, next: Next, d: (Time, Time))
    requires Ordered(ds, start, next) && start < d.0 <= d.1 && IsSlot(next, d.0)
    requires ds != [] ==> ds[|ds| - 1].1 < d.0
    ensures Ordered(ds + [d], start, next)
  {
    var all := ds + [d];
    forall k, l | 0 <= k < l < |all| ensures all[k].1 < all[l].0 {
      assert all[k] == ds[k];
      if l == |ds| {
        assert k < |ds| - 1 ==> ds[k].1 < ds[|ds| - 1].0 <= ds[|ds| - 1].1;
      } else {
        assert all[l] == ds[l];
      }
    }
  }

  lemma SincePrefix(ds: seq<(Time, Time)>, d: (Time, Time), start: Time, k: nat)
    requires k <= |ds|
    ensures Since(ds + [d], start, k) == Since(ds, start, k)
    ensures k < |ds| ==> (ds + [d])[k] == ds[k]
  {
  }

  lemma GaplessAppend(ds: seq<(Time, Time)>, start: Time, next: Next, d: (Time, Time))
    requires Gapless(ds, start, next) && FirstAfter(next, Since(ds, start, |ds|), d.0)
    ensures Gapless(ds + [d], start, next)
  {
    var all := ds + [d];
    forall k | 0 <= k < |all| ensures FirstAfter(next, Since(all, start, k), all[k].0) {
      SincePrefix(ds, d, start, k);
      if k < |ds| {
        assert FirstAfter(next, Since(ds, start, k), ds[k].0);
      }
    }
  }

  /** The job keeps to its schedule. */
  ghost predicate OnSchedule(ds: seq<(Time, Time)>, at: JobState, start: Time, last: Time) {
    Ordered(ds, start, at.next) && Gapless(ds, start, at.next) && JobOk(ds, at, start, last) && start < at.slot
  }

  lemma PassKeeps(ds: seq<(Time, Time)>, at: JobState, start: Time, last: Time, p: Pass)
    requires OnSchedule(ds, at, start, last) && ZERO_TIME <= start <= last <= p.now && Draw(at.jitter, p.d) && !RunsDry(at, p.now)
    ensures OnSchedule(ds + if at.fire <= p.now then [(at.slot, p.now)] else [], Tick(at, p.now, p.d), start, p.now)
    ensures p.now < Tick(at, p.now, p.d).fire
  {
    if at.fire <= p.now {
      FoundIsFirst(at.next, p.now);
      OrderedAppend(ds, start, at.next, (at.slot, p.now));
      GaplessAppend(ds, start, at.next, (at.slot, p.now));
    } else {
      assert ds + [] == ds;
    }
  }

  lemma FoundIsFirst(next: Next, t: Time)
    requires IsCron(next) && ZERO_TIME <= t && !Dry(next, t)
    ensures FirstAfter(next, t, next(t))
  {
    forall u | IsSlot(next, u) && t < u ensures next(t) <= u {
      FoundIsLeastSlot(next, t, u);
    }
    FoundIsLeastSlot(next, t, t);
  }

  lemma RunNext(j: JobState, prev: seq<Pass>, p: Pass)
    ensures RunJob(j, prev + [p]) == Tick(RunJob(j, prev), p.now, p.d)
    ensures Dispatches(j, prev + [p]) ==
              Dispatches(j, prev) + if RunJob(j, prev).fire <= p.now then [(RunJob(j, prev).slot, p.now)] else []
  {
    assert (prev + [p])[..|prev|] == prev;
  }

  lemma ClockPrefix(start: Time, prev: seq<Pass>, p: Pass, jitter: int)
    requires Clock(start, prev + [p], jitter)
    ensures Clock(start, prev, jitter) && Draw(jitter, p.d)
    ensures start <= LastNow(start, prev) <= p.now == LastNow(start, prev + [p])
  {
    var all := prev + [p];
    assert all[|prev|] == p && forall i :: 0 <= i < |prev| ==> all[i] == prev[i];
  }

  /** What a job has done over a run of passes, and where it stands. */
  ghost predicate Regular(j: JobState, start: Time, passes: seq<Pass>) {
    var ds, at := Dispatches(j, passes), RunJob(j, passes);
    && at.next == j.next && at.jitter == j.jitter
    && OnSchedule(ds, at, start, LastNow(start, passes)) && |ds| <= |passes|
    && (passes != [] ==> LastNow(start, passes) < at.fire)
  }

  /** At registration or at some dispatch the schedule had no slot to offer. */
  ghost predicate RanDry(j: JobState, start: Time, passes: seq<Pass>) {
    Dry(j.next, start) || exists i :: 0 <= i < |passes| && RunsDry(RunJob(j, passes[..i]), passes[i].now)
  }

  lemma RanDryNext(j: JobState, start: Time, prev: seq<Pass>, p: Pass)
    ensures RanDry(j, start, prev + [p]) <==> RanDry(j, start, prev) || RunsDry(RunJob(j, prev), p.now)
  {
    var all := prev + [p];
    assert all[..|prev|] == prev && all[|prev|] == p;
    assert forall i :: 0 <= i < |prev| ==> all[..i] == prev[..i] && all[i] == prev[i];
    if i :| 0 <= i < |prev| && RunsDry(RunJob(j, prev[..i]), prev[i].now) {
      assert RunsDry(RunJob(j, all[..i]), all[i].now);
    }
  }

  /** Once dry, always off schedule: a slot at or before the registration is pending or was taken. */
  ghost predicate OffSchedule(j: JobState, start: Time, passes: seq<Pass>) {
    RunJob(j, passes).slot <= start || exists k :: 0 <= k < |Dispatches(j, passes)| && Dispatches(j, passes)[k].0 <= start
  }

  lemma OffIsIrregular(j: JobState, start: Time, passes: seq<Pass>)
    requires OffSchedule(j, start, passes)
    ensures !Regular(j, start, passes)
  {
  }

  lemma OffNext(j: JobState, start: Time, prev: seq<Pass>, p: Pass)
    requires OffSchedule(j, start, prev) || (RunsDry(RunJob(j, prev), p.now) && ZERO_TIME <= start)
    ensures OffSchedule(j, start, prev + [p])
  {
    RunNext(j, prev, p);
    RunKeepsSchedule(j, prev);
    var ds, all := Dispatches(j, prev), Dispatches(j, prev + [p]);
    if k :| 0 <= k < |ds| && ds[k].0 <= start {
      assert all[k] == ds[k];
    } else if RunJob(j, prev).slot <= start && RunJob(j, prev).fire <= p.now {
      assert all[|ds|].0 <= start;
    }
  }

  lemma {:induction false} RunKeepsSchedule(j: JobState, passes: seq<Pass>)
    ensures RunJob(j, passes).next == j.next && RunJob(j, passes).jitter == j.jitter
    decreases |passes|
  {
    if passes != [] {
      RunKeepsSchedule(j, passes[..|passes| - 1]);
    }
  }

  /** For any schedule the program accepts, any non-decreasing clock and any jitter: a job is
      dispatched at most once per pass, only for real slots after its registration that have come,
      every slot it takes is the first after the previous dispatch, its next slot is the first after
      its last dispatch, and its fire is that slot plus a draw, if and only if its schedule had a slot
      to offer at registration and at every dispatch. So no slot fires twice, and slots missed while the daemon was away are covered by one
      dispatch. */
  lemma {:induction false} SlotsNeverRepeat(next: Next, jitter: int, start: Time, d: int, passes: seq<Pass>)
    requires IsCron(next) && Draw(jitter, d) && Clock(start, passes, jitter) && ZERO_TIME <= start
    ensures var j := Registered(next, jitter, start, d);
            && (Regular(j, start, passes) <==> !RanDry(j, start, passes))
            && (RanDry(j, start, passes) ==> OffSchedule(j, start, passes))
    decreases |passes|
  {
    var j := Registered(next, jitter, start, d);
    if passes == [] {
      assert Dispatches(j, []) == [] && RunJob(j, []) == j;
      if !Dry(next, start) {
        RegularStart(j, start);
      }
    } else {
      var prev, p := passes[..|passes| - 1], passes[|passes| - 1];
      assert prev + [p] == passes;
      ClockPrefix(start, prev, p, jitter);
      SlotsNeverRepeat(next, jitter, start, d, prev);
      RanDryNext(j, start, prev, p);
      if RanDry(j, start, passes) {
        OffNext(j, start, prev, p);
        OffIsIrregular(j, start, passes);
      } else {
        RegularNext(j, start, prev, p);
      }
    }
  }

  /** A job as registration leaves it. */
  function Registered(next: Next, jitter: int, start: Time, d: int): JobState {
    JobState(next, jitter, next(start) + d, next(start))
  }

  lemma RegularStart(j: JobState, start: Time)
    requires IsCron(j.next) && ZERO_TIME <= start && !Dry(j.next, start) && j.slot == j.next(start) && Draw(j.jitter, j.fire - j.slot)
    ensures Regular(j, start, [])
  {
    FoundIsFirst(j.next, start);
    assert Dispatches(j, []) == [] && RunJob(j, []) == j;
  }

  lemma RegularNext(j: JobState, start: Time, prev: seq<Pass>, p: Pass)
    requires Regular(j, start, prev) && Draw(j.jitter, p.d) && ZERO_TIME <= start <= LastNow(start, prev) <= p.now
    requires !RunsDry(RunJob(j, prev), p.now)
    ensures Regular(j, start, prev + [p])
  {
    RunNext(j, prev, p);
    PassKeeps(Dispatches(j, prev), RunJob(j, prev), start, LastNow(start, prev), p);
  }

  /** A job whose schedule never has a slot is dispatched on every pass, whatever it draws. */
  lemma {:induction false} DryJobNeverRests(next: Next, jitter: int, start: Time, d: int, passes: seq<Pass>)
    requires Draw(jitter, d) && Clock(start, passes, jitter) && jitter <= start && ZERO_TIME <= start
    requires forall t :: start <= t ==> Dry(next, t)
    ensures var j := Registered(next, jitter, start, d);
            && |Dispatches(j, passes)| == |passes|
            && ZERO_TIME <= RunJob(j, passes).fire <= start
    decreases |passes|
  {
    var j := Registered(next, jitter, start, d);
    if passes != [] {
      var prev, p := passes[..|passes| - 1], passes[|passes| - 1];
      assert prev + [p] == passes;
      ClockPrefix(start, prev, p, jitter);
      DryJobNeverRests(next, jitter, start, d, prev);
      RunNext(j, prev, p);
      RunKeepsSchedule(j, prev);
      assert Dry(next, p.now);
      assert RunJob(j, prev).fire <= p.now && RunJob(j, prev + [p]).fire == ZERO_TIME + p.d;
    } else {
      assert Dry(next, start);
      assert Dispatches(j, []) == [] && RunJob(j, []) == j;
    }
  }

  /** Alone in the scheduler, a job that ran dry makes the loop spin if it drew a positive jitter, for
      the wake-up has passed already, and stall for good if it drew none. */
  lemma DryJobSpinsOrStalls(j: JobState, now: Time, d: int)
    requires IsCron(j.next) && Draw(j.jitter, d) && j.jitter <= now && ZERO_TIME <= now && RunsDry(j, now)
    ensures var wake := Soonest(FireTimes(Visited([j], now, [d])));
            && (d > 0 ==> ZERO_TIME < wake <= now && RunsDry(Tick(j, now, d), now))
            && (d == 0 ==> wake == ZERO_TIME)
  {
    FireAfterPass(j, now, d);
    var fires := FireTimes(Visited([j], now, [d]));
    assert fires == [] + [Tick(j, now, d).fire];
    SoonestNext([], Tick(j, now, d).fire);
  }

  /** The other direction: once a pass reads a clock at or past the fire, the job is dispatched. */
  lemma DispatchedWhenDue(j: JobState, passes: seq<Pass>, p: Pass)
    ensures RunJob(j, passes).fire <= p.now ==>
              Dispatches(j, passes + [p]) == Dispatches(j, passes) + [(RunJob(j, passes).slot, p.now)]
    ensures p.now < RunJob(j, passes).fire ==> Dispatches(j, passes + [p]) == Dispatches(j, passes)
  {
    RunNext(j, passes, p);
  }
}
