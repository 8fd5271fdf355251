/** What holds of every trace of the run machine. */
module RunTheorems {
  import opened Common
  import opened Store
  import opened Levels
  import opened RunMachine
  import opened RunInvariant
  import opened RunSteps
  import RestoreTrace
  import Fates
  import Retention

  // ---- how the store may change between two points of a trace ----

  predicate EntryEvolves(e: Entry, f: Entry) {
    && f.drill == e.drill && f.start == e.start
    && (e.verdict.Some? ==> f.verdict == e.verdict && f.normal == e.normal)
    && (e.normal ==> f.normal && f.done == e.done && f.st == e.st)
    && e.proved <= f.proved
    && (e.counted ==> f.counted)
  }

  ghost predicate HistEvolves(s: Sys, t: Sys) {
    forall id :: id in s.hist ==> id in t.hist && EntryEvolves(s.hist[id], t.hist[id])
  }

  /** Rows never come back, and a row with a verdict never changes. */
  ghost predicate RowsEvolve(s: Sys, t: Sys) {
    && (forall id :: id in t.db.runs && id in s.hist ==> id in s.db.runs)
    && (forall id :: id in t.db.runs && id in s.db.runs && s.db.runs[id].result.Some? ==> t.db.runs[id] == s.db.runs[id])
  }

  ghost predicate ProofsEvolve(s: Sys, t: Sys) {
    forall k :: k in s.db.proofs ==> k in t.db.proofs && s.db.proofs[k] <= t.db.proofs[k]
  }

  ghost predicate CountersEvolve(s: Sys, t: Sys) {
    forall drill :: Counter(s.db, drill) <= Counter(t.db, drill)
  }

  ghost predicate Evolves(s: Sys, t: Sys) {
    HistEvolves(s, t) && RowsEvolve(s, t) && ProofsEvolve(s, t) && CountersEvolve(s, t)
  }

  /** The history of run id and its row tell the same verdict. */
  predicate Agrees(s: Sys, id: nat) {
    && id in s.hist && (s.hist[id].normal ==> s.hist[id].verdict.Some?)
    && (id in s.db.runs ==> s.db.runs[id].result == s.hist[id].verdict)
  }

  lemma FinishEntryEvolves(s: Sys, p: nat, end: Time, ack: Ack, id: nat)
    requires Agrees(s, id) && Known(s, p)
    ensures var t := DoFinish(s, p, end, ack); id in t.hist && EntryEvolves(s.hist[id], t.hist[id])
  {
  }

  lemma FinalizeEntryEvolves(s: Sys, p: nat, end: Time, ack: Ack, id: nat)
    requires Agrees(s, id) && Known(s, p)
    ensures var t := DoFinalize(s, p, end, ack); id in t.hist && EntryEvolves(s.hist[id], t.hist[id])
  {
  }

  lemma ProveEntryEvolves(s: Sys, p: nat, ack: Ack, id: nat)
    requires Agrees(s, id) && Known(s, p)
    ensures var t := DoProve(s, p, ack); id in t.hist && EntryEvolves(s.hist[id], t.hist[id])
  {
  }

  lemma MarkEntryEvolves(s: Sys, now: Time, ack: Ack, id: nat)
    requires Agrees(s, id)
    ensures var t := DoMark(s, now, ack); id in t.hist && EntryEvolves(s.hist[id], t.hist[id])
  {
  }

  lemma ApplyEntryEvolves(s: Sys, a: Action, id: nat)
    requires id < s.db.nextId && Agrees(s, id)
    ensures id in Apply(s, a).hist && EntryEvolves(s.hist[id], Apply(s, a).hist[id])
  {
    match a
    case Begin(p, drill, only, start, gap, ack) =>
    case MarkAbandoned(now, ack) => MarkEntryEvolves(s, now, ack, id);
    case PruneRuns(drill, maxAge, maxCount, now, ack) =>
    case ExecLevel(p, resp) =>
    case EvidenceFails(p) =>
    case WriteStep(p, ack) =>
    case Finish(p, end, ack) => if Known(s, p) { FinishEntryEvolves(s, p, end, ack, id); }
    case Finalize(p, end, ack) => if Known(s, p) { FinalizeEntryEvolves(s, p, end, ack, id); }
    case Count(p, ack) =>
    case Prove(p, ack) => if Known(s, p) { ProveEntryEvolves(s, p, ack, id); }
    case Retain(p, ack) =>
    case Panic(p) =>
    case Crash(p) =>
  }

  /** What may become of a row in one step. */
  predicate RowEvolves(db: Db, after: Db, id: nat) {
    id in after.runs ==> id in db.runs && (db.runs[id].result.Some? ==> after.runs[id] == db.runs[id])
  }

  lemma LoopRowEvolves(s: Sys, a: Action, id: nat)
    requires LoopAction(a)
    ensures RowEvolves(s.db, Apply(s, a).db, id)
  {
    match a
    case ExecLevel(p, resp) =>
    case EvidenceFails(p) =>
    case WriteStep(p, ack) =>
    case Finish(p, end, ack) =>
    case Panic(p) =>
  }

  lemma TailRowEvolves(s: Sys, a: Action, id: nat)
    requires TailAction(a)
    ensures RowEvolves(s.db, Apply(s, a).db, id)
  {
    match a
    case Finalize(p, end, ack) =>
    case Count(p, ack) =>
    case Prove(p, ack) =>
    case Retain(p, ack) =>
    case Crash(p) =>
  }

  lemma ApplyRowEvolves(s: Sys, a: Action, id: nat)
    requires id < s.db.nextId
    ensures RowEvolves(s.db, Apply(s, a).db, id)
  {
    if LoopAction(a) {
      LoopRowEvolves(s, a, id);
    } else if TailAction(a) {
      TailRowEvolves(s, a, id);
    } else {
      match a
      case Begin(p, drill, only, start, gap, ack) =>
      case MarkAbandoned(now, ack) =>
      case PruneRuns(drill, maxAge, maxCount, now, ack) =>
    }
  }

  lemma ApplyProofEvolves(s: Sys, a: Action, k: (string, Level))
    requires k in s.db.proofs
    ensures k in Apply(s, a).db.proofs && s.db.proofs[k] <= Apply(s, a).db.proofs[k]
  {
    match a
    case Begin(p, drill, only, start, gap, ack) =>
    case MarkAbandoned(now, ack) =>
    case PruneRuns(drill, maxAge, maxCount, now, ack) =>
    case ExecLevel(p, resp) =>
    case EvidenceFails(p) =>
    case WriteStep(p, ack) =>
    case Finish(p, end, ack) =>
    case Finalize(p, end, ack) =>
    case Count(p, ack) =>
    case Prove(p, ack) =>
    case Retain(p, ack) =>
    case Panic(p) =>
    case Crash(p) =>
  }

  lemma ApplyCounterEvolves(s: Sys, a: Action, drill: string)
    ensures Counter(s.db, drill) <= Counter(Apply(s, a).db, drill)
  {
    match a
    case Begin(p, d, only, start, gap, ack) =>
    case MarkAbandoned(now, ack) =>
    case PruneRuns(of, maxAge, maxCount, now, ack) =>
    case ExecLevel(p, resp) =>
    case EvidenceFails(p) =>
    case WriteStep(p, ack) =>
    case Finish(p, end, ack) =>
    case Finalize(p, end, ack) =>
    case Count(p, ack) =>
    case Prove(p, ack) =>
    case Retain(p, ack) =>
    case Panic(p) =>
    case Crash(p) =>
  }

  lemma ApplyEvolves(s: Sys, a: Action)
    requires Inv(s)
    ensures Evolves(s, Apply(s, a))
  {
    forall id | id in s.hist ensures id in Apply(s, a).hist && EntryEvolves(s.hist[id], Apply(s, a).hist[id]) {
      assert EntryOk(s.hist[id]);
      if id in s.db.runs {
        assert RowOk(s.db, id, s.db.runs[id], s.hist[id]);
      }
      ApplyEntryEvolves(s, a, id);
    }
    forall id | id in s.hist && id in Apply(s, a).db.runs
      ensures id in s.db.runs && (s.db.runs[id].result.Some? ==> Apply(s, a).db.runs[id] == s.db.runs[id])
    {
      ApplyRowEvolves(s, a, id);
    }
    forall k | k in s.db.proofs ensures k in Apply(s, a).db.proofs && s.db.proofs[k] <= Apply(s, a).db.proofs[k] {
      ApplyProofEvolves(s, a, k);
    }
    forall drill ensures Counter(s.db, drill) <= Counter(Apply(s, a).db, drill) {
      ApplyCounterEvolves(s, a, drill);
    }
  }

  lemma EvolvesTransitive(s: Sys, t: Sys, u: Sys)
    requires IdsOk(s) && Evolves(s, t) && Evolves(t, u)
    ensures Evolves(s, u)
  {
    forall drill ensures Counter(s.db, drill) <= Counter(u.db, drill) {
      assert Counter(s.db, drill) <= Counter(t.db, drill);
    }
    forall id | id in u.db.runs && id in s.hist ensures id in s.db.runs && (s.db.runs[id].result.Some? ==> u.db.runs[id] == s.db.runs[id]) {
      assert id in t.hist;
      assert id in t.db.runs;
    }
  }

  /** Along every continuation of every trace, the store evolves. */
  lemma {:induction false} TraceEvolves(acts: seq<Action>, more: seq<Action>)
    ensures Evolves(Reach(acts), Reach(acts + more))
    decreases |more|
  {
    ReachInv(acts);
    if more == [] {
      assert acts + more == acts;
    } else {
      var n := |more| - 1;
      TraceEvolves(acts, more[..n]);
      ReachInv(acts + more[..n]);
      assert (acts + more)[..|acts + more| - 1] == acts + more[..n];
      ApplyEvolves(Reach(acts + more[..n]), more[n]);
      EvolvesTransitive(Reach(acts), Reach(acts + more[..n]), Reach(acts + more));
    }
  }

  // ---- proofs ----

  /** Run id of the drill started at `at`, committed the verdict pass itself, had level lv passing
      among its outcomes, and the executor really passed that level earlier in the trace. */
  ghost predicate Proven(acts: seq<Action>, id: nat, drill: string, lv: Level, at: Time) {
    var hist := Reach(acts).hist;
    && id in hist && hist[id].drill == drill && hist[id].start == at
    && hist[id].normal && hist[id].verdict == Some(Pass)
    && PassedAt(hist[id].done, lv)
    && RestoreTrace.ExecutorPassed(acts, id, lv)
  }

  /** A run that recorded a proof earned it. */
  lemma ProvenByTrace(acts: seq<Action>, id: nat, lv: Level)
    requires id in Reach(acts).hist && lv in Reach(acts).hist[id].proved
    ensures Proven(acts, id, Reach(acts).hist[id].drill, lv, Reach(acts).hist[id].start)
  {
    ReachInv(acts);
    RestoreTrace.ReachTraced(acts);
    var e := Reach(acts).hist[id];
    assert EntryOk(e);
    var i :| 0 <= i < |e.done| && e.done[i].level == lv && e.done[i].outcome == Ran(Pass);
    assert RestoreTrace.DoneOk(acts, id, e.done);
    assert RestoreTrace.ExecutorPassed(acts, id, e.done[i].level);
  }

  /** A proof exists only if a restore really passed. */
  lemma ProofSoundness(acts: seq<Action>, drill: string, lv: Level)
    requires (drill, lv) in Reach(acts).db.proofs
    ensures exists id :: Proven(acts, id, drill, lv, Reach(acts).db.proofs[(drill, lv)])
  {
    var s := Reach(acts);
    ReachInv(acts);
    var at := s.db.proofs[(drill, lv)];
    assert ProofOk(s, drill, lv, at);
    var id :| Recorded(s.hist, id, drill, lv, at);
    ProvenByTrace(acts, id, lv);
    assert Proven(acts, id, drill, lv, at);
  }

  /** The converse: a proof a run recorded is there for good, at that run's start or later. */
  lemma ProofComplete(acts: seq<Action>, more: seq<Action>, id: nat, lv: Level)
    requires id in Reach(acts).hist && lv in Reach(acts).hist[id].proved
    ensures var e := Reach(acts).hist[id];
            (e.drill, lv) in Reach(acts + more).db.proofs && e.start <= Reach(acts + more).db.proofs[(e.drill, lv)]
  {
    ReachInv(acts);
    TraceEvolves(acts, more);
  }

  lemma ProofsNeverRegress(acts: seq<Action>, more: seq<Action>, drill: string, lv: Level)
    requires (drill, lv) in Reach(acts).db.proofs
    ensures (drill, lv) in Reach(acts + more).db.proofs
    ensures Reach(acts).db.proofs[(drill, lv)] <= Reach(acts + more).db.proofs[(drill, lv)]
  {
    TraceEvolves(acts, more);
  }

  // ---- verdicts ----

  /** A row with a verdict stays as it is until it is deleted, and a deleted row never returns. */
  lemma VerdictsAreWriteOnce(acts: seq<Action>, more: seq<Action>, id: nat)
    requires id in Reach(acts).hist
    ensures id !in Reach(acts).db.runs ==> id !in Reach(acts + more).db.runs
    ensures id in Reach(acts).db.runs && Reach(acts).db.runs[id].result.Some? && id in Reach(acts + more).db.runs ==>
              Reach(acts + more).db.runs[id] == Reach(acts).db.runs[id]
    ensures Reach(acts).hist[id].verdict.Some? ==>
              id in Reach(acts + more).hist && Reach(acts + more).hist[id].verdict == Reach(acts).hist[id].verdict
  {
    TraceEvolves(acts, more);
  }

  /** Once a run was finalized by anyone but its own normal end, it is an error for good: it never
      records a proof and never counts bytes, whatever its process still does. */
  lemma AbandonedRunsProveNothing(acts: seq<Action>, more: seq<Action>, id: nat)
    requires id in Reach(acts).hist && Reach(acts).hist[id].verdict.Some? && !Reach(acts).hist[id].normal
    ensures id in Reach(acts + more).hist
    ensures var e := Reach(acts + more).hist[id]; e.verdict == Some(Error) && !e.normal && e.proved == {} && !e.counted
  {
    ReachInv(acts);
    ReachInv(acts + more);
    TraceEvolves(acts, more);
    assert EntryOk(Reach(acts).hist[id]);
    assert EntryOk(Reach(acts + more).hist[id]);
  }

  /** After the startup marking no row lacks a verdict, and the rows that had one keep it. */
  lemma MarkingClosesEveryRow(acts: seq<Action>, now: Time, ack: Ack, id: nat)
    requires !ack.Failed? && id in Reach(acts).db.runs
    ensures var before, after := Reach(acts).db.runs, Reach(acts + [MarkAbandoned(now, ack)]).db.runs;
            id in after && after[id] == if before[id].result.None? then before[id].(result := Some(Error), finishedAt := now) else before[id]
  {
    assert (acts + [MarkAbandoned(now, ack)])[..|acts|] == acts;
  }

  /** The retention step behind a run deletes exactly what the drill's own limits, the age before the
      count, do not keep at the run's end; without effect, or refused for want of a clock, nothing. */
  lemma RetentionFollowsTheDrill(s: Sys, p: nat, ack: Ack, id: nat)
    requires Known(s, p) && s.procs[p].phase == Proving([])
    ensures var q, after := s.procs[p], Apply(s, Retain(p, ack)).db;
            && (id in after.runs ==> id in s.db.runs && after.runs[id] == s.db.runs[id])
            && (id in after.runs <==>
                  if ack.Failed? || (q.drill.maxAge > 0 && q.end == ZERO_TIME) then id in s.db.runs
                  else Retention.Keeps(s.db.runs, q.drill.name, q.drill.maxAge, q.drill.maxCount, q.end, id))
  {
    var q := s.procs[p];
    Retention.PruneKeepsExactly(s.db, q.drill.name, q.drill.maxAge, q.drill.maxCount, q.end, ack, id);
  }

  /** A row without a verdict belongs to a run that a process is still executing, or one whose
      process crashed, whose insert took effect unheard, or whose finalizer's write failed, each
      somewhere in the trace. No other `Run` comes back leaving its row open. */
  lemma NoZombies(acts: seq<Action>, id: nat)
    requires id in Reach(acts).db.runs && Reach(acts).db.runs[id].result.None?
    ensures Fates.Executing(Reach(acts), id)
         || Fates.Caused(acts, id, Crashed) || Fates.Caused(acts, id, CreateUnheard) || Fates.Caused(acts, id, FinalizeFailed)
  {
    ReachInv(acts);
    Fates.FatesExplained(acts, id);
    assert RowOk(Reach(acts).db, id, Reach(acts).db.runs[id], Reach(acts).hist[id]);
  }

  /** What a normally finished run left in the store: the verdict its outcomes call for, the last
      level executed, the pin, the sum of the bytes of its levels, and one step row per level. */
  lemma FinishedRowsTellTheRun(acts: seq<Action>, id: nat)
    requires id in Reach(acts).db.runs && id in Reach(acts).hist && Reach(acts).hist[id].normal
    ensures var db, e := Reach(acts).db, Reach(acts).hist[id];
            var r := db.runs[id];
            && r.result == Some(RunVerdict(e.done)) && (r.levelReached, RunVerdict(e.done)) == LastRan(e.done)
            && r.bytes == SumBytes(e.done)
            && r.snapshot == e.st.pin && r.snapshotTime == e.st.pinAt
            && |StepsOf(db, id)| == |e.done|
            && (forall i :: 0 <= i < |e.done| ==> StepsOf(db, id)[i] == StepRow(e.done[i].level, e.done[i].outcome))
            && (r.result == Some(Pass) ==> forall i :: 0 <= i < |e.done| ==> !Bad(e.done[i]))
  {
    ReachInv(acts);
    var s := Reach(acts);
    assert EntryOk(s.hist[id]);
    assert RowOk(s.db, id, s.db.runs[id], s.hist[id]);
    VerdictIsLastRan(s.hist[id].done);
  }

  // ---- byte counters ----

  lemma CountersNeverDecrease(acts: seq<Action>, more: seq<Action>, drill: string)
    ensures Counter(Reach(acts).db, drill) <= Counter(Reach(acts + more).db, drill)
  {
    TraceEvolves(acts, more);
  }

  ghost predicate Uncounted(hist: map<nat, Entry>, id: nat, drill: string) {
    id in hist && hist[id].drill == drill && hist[id].normal && hist[id].st.bytes > 0 && !hist[id].counted
  }

  lemma {:induction false} CountedBelowNormal(hist: map<nat, Entry>, n: nat, drill: string)
    requires forall id :: id in hist && hist[id].counted ==> hist[id].normal
    ensures RestoredBytes(hist, n, drill, true) <= RestoredBytes(hist, n, drill, false)
    ensures RestoredBytes(hist, n, drill, true) == RestoredBytes(hist, n, drill, false) <==> forall id :: Uncounted(hist, id, drill) ==> n <= id
    decreases n
  {
    if n > 0 {
      CountedBelowNormal(hist, n - 1, drill);
      assert Uncounted(hist, n - 1, drill) <==> Weight(hist, n - 1, drill, true) != Weight(hist, n - 1, drill, false);
      if forall id :: Uncounted(hist, id, drill) ==> n <= id {
        assert forall id :: Uncounted(hist, id, drill) ==> n - 1 <= id;
      }
    }
  }

  /** The counter never exceeds what the drill's normally finished runs restored, pruned or not,
      and it equals that sum exactly when no such run is missing its counter update. */
  lemma CounterConservation(acts: seq<Action>, drill: string)
    ensures var s := Reach(acts);
            && Counter(s.db, drill) <= RestoredBytes(s.hist, s.db.nextId, drill, false)
            && (Counter(s.db, drill) == RestoredBytes(s.hist, s.db.nextId, drill, false) <==> forall id :: !Uncounted(s.hist, id, drill))
  {
    ReachInv(acts);
    var s := Reach(acts);
    forall id | id in s.hist && s.hist[id].counted ensures s.hist[id].normal {
      assert EntryOk(s.hist[id]);
    }
    CountedBelowNormal(s.hist, s.db.nextId, drill);
    assert Counter(s.db, drill) == RestoredBytes(s.hist, s.db.nextId, drill, true);
    assert forall id: nat :: Uncounted(s.hist, id, drill) ==> id < s.db.nextId;
  }
}
