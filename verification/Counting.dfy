/** Which runs the byte counter misses, read off the trace. */
module Counting {
  import opened Common
  import opened Store
  import opened Levels
  import opened RunMachine
  import opened RunInvariant
  import opened RunSteps
  import opened RunTheorems

  /** Process p has committed the verdict of run id and is about to count its bytes. */
  predicate Counts(s: Sys, p: nat, id: nat) {
    p in s.procs && s.procs[p].id == id && s.procs[p].phase.Counting?
  }

  ghost predicate Owing(s: Sys, id: nat) {
    exists p :: Counts(s, p, id)
  }

  /** Run id commits its verdict now, but is told that it did not. */
  predicate CommitUnheard(s: Sys, a: Action, id: nat) {
    && a.Finish? && a.ack.Lost? && Known(s, a.p) && s.procs[a.p].id == id
    && s.procs[a.p].phase.Looping? && s.procs[a.p].todo == [] && Commits(s.db, id, a.ack)
  }

  /** Action a loses the counter update of run id: the write has no effect, the process dies before
      it, or the run never comes to it. */
  predicate Misses(s: Sys, a: Action, id: nat) {
    || (a.Count? && a.ack.Failed? && Counts(s, a.p, id))
    || (a.Crash? && Counts(s, a.p, id))
    || CommitUnheard(s, a, id)
  }

  ghost predicate Missed(acts: seq<Action>, id: nat) {
    exists i :: 0 <= i < |acts| && Misses(Reach(acts[..i]), acts[i], id)
  }

  /** The run finished normally and its bytes are not counted. */
  predicate Unpaid(s: Sys, id: nat) {
    id in s.hist && s.hist[id].normal && !s.hist[id].counted
  }

  /** An uncounted run is one whose update is still to come or was lost, and never both. */
  ghost predicate Balanced(s: Sys, id: nat, missed: bool) {
    && (Unpaid(s, id) <==> Owing(s, id) || missed)
    && (missed ==> !Owing(s, id))
  }

  /** Nothing that concerns the counting of run id has changed. */
  ghost predicate Same(s: Sys, t: Sys, id: nat) {
    && (Unpaid(t, id) <==> Unpaid(s, id))
    && (forall p :: Counts(t, p, id) <==> Counts(s, p, id))
  }

  lemma SameBalanced(s: Sys, t: Sys, id: nat, missed: bool)
    requires Balanced(s, id, missed) && Same(s, t, id)
    ensures Balanced(t, id, missed)
  {
  }

  predicate Quiet(a: Action) {
    !a.Finish? && !a.Count? && !a.Crash?
  }

  lemma QuietCounts(s: Sys, a: Action, p: nat, id: nat)
    requires Quiet(a)
    ensures Counts(Apply(s, a), p, id) <==> Counts(s, p, id)
  {
    match a
    case Begin(q, drill, only, start, gap, ack) =>
    case MarkAbandoned(now, ack) =>
    case PruneRuns(drill, maxAge, maxCount, now, ack) =>
    case ExecLevel(q, resp) =>
    case EvidenceFails(q) =>
    case WriteStep(q, ack) =>
    case Finalize(q, end, ack) =>
    case Prove(q, ack) =>
    case Retain(q, ack) =>
    case Panic(q) =>
  }

  lemma QuietUnpaid(s: Sys, a: Action, id: nat)
    requires Quiet(a) && (id in s.hist ==> id < s.db.nextId)
    ensures Unpaid(Apply(s, a), id) <==> Unpaid(s, id)
  {
    match a
    case Begin(q, drill, only, start, gap, ack) =>
    case MarkAbandoned(now, ack) =>
    case PruneRuns(drill, maxAge, maxCount, now, ack) =>
    case ExecLevel(q, resp) =>
    case EvidenceFails(q) =>
    case WriteStep(q, ack) =>
    case Finalize(q, end, ack) =>
    case Prove(q, ack) =>
    case Retain(q, ack) =>
    case Panic(q) =>
  }

  /** The verdict is committed: counting comes next, or the run does not know and never counts. */
  lemma FinishBalanced(s: Sys, p: nat, end: Time, ack: Ack, id: nat, missed: bool)
    requires Inv(s) && Known(s, p) && s.procs[p].id == id && Balanced(s, id, missed)
    ensures Balanced(DoFinish(s, p, end, ack), id, missed || CommitUnheard(s, Finish(p, end, ack), id))
  {
    var t := DoFinish(s, p, end, ack);
    assert ProcOk(s, s.procs[p]);
    assert EntryOk(s.hist[id]);
    Alone(s, p, id);
    if s.procs[p].phase.Looping? && s.procs[p].todo == [] {
      assert !Counts(s, p, id);
      assert forall r :: Counts(t, r, id) ==> r == p;
      assert t.procs[p].phase.Counting? ==> Counts(t, p, id);
    }
  }

  /** No other process executes run id. */
  lemma Alone(s: Sys, p: nat, id: nat)
    requires IdsOk(s) && p in s.procs && s.procs[p].id == id
    ensures forall r :: r in s.procs && s.procs[r].id == id ==> r == p
    ensures Owing(s, id) <==> Counts(s, p, id)
  {
  }

  lemma CountBalanced(s: Sys, p: nat, ack: Ack, id: nat, missed: bool)
    requires Inv(s) && Known(s, p) && s.procs[p].id == id && Balanced(s, id, missed)
    ensures Balanced(DoCount(s, p, ack), id, missed || Misses(s, Count(p, ack), id))
  {
    Alone(s, p, id);
    if Counts(s, p, id) {
      var t := DoCount(s, p, ack);
      assert forall r :: !Counts(t, r, id);
    }
  }

  lemma CrashBalanced(s: Sys, p: nat, id: nat, missed: bool)
    requires Inv(s) && Known(s, p) && s.procs[p].id == id && Balanced(s, id, missed)
    ensures Balanced(Leave(s, p, Crashed), id, missed || Misses(s, Crash(p), id))
  {
    Alone(s, p, id);
    var t := Leave(s, p, Crashed);
    assert forall r :: !Counts(t, r, id);
  }

  /** A step of another run's process. */
  lemma OtherSame(s: Sys, a: Action, id: nat)
    requires !Quiet(a) && Known(s, a.p) && s.procs[a.p].id != id
    ensures Same(s, Apply(s, a), id)
  {
    match a
    case Finish(p, end, ack) =>
    case Count(p, ack) =>
    case Crash(p) =>
  }

  lemma QuietSame(s: Sys, a: Action, id: nat)
    requires IdsOk(s) && Quiet(a)
    ensures Same(s, Apply(s, a), id)
  {
    QuietUnpaid(s, a, id);
    forall p ensures Counts(Apply(s, a), p, id) <==> Counts(s, p, id) {
      QuietCounts(s, a, p, id);
    }
  }

  lemma KnownProc(s: Sys, p: nat)
    requires ProcsOk(s) && p in s.procs
    ensures Known(s, p)
  {
    assert ProcOk(s, s.procs[p]);
  }

  lemma OwnBalanced(s: Sys, a: Action, id: nat, missed: bool)
    requires Inv(s) && !Quiet(a) && Known(s, a.p) && s.procs[a.p].id == id && Balanced(s, id, missed)
    ensures Balanced(Apply(s, a), id, missed || Misses(s, a, id))
  {
    match a
    case Finish(p, end, ack) => FinishBalanced(s, p, end, ack, id, missed);
    case Count(p, ack) => CountBalanced(s, p, ack, id, missed);
    case Crash(p) => CrashBalanced(s, p, id, missed);
  }

  lemma ApplyBalanced(s: Sys, a: Action, id: nat, missed: bool)
    requires Inv(s) && Balanced(s, id, missed)
    ensures Balanced(Apply(s, a), id, missed || Misses(s, a, id))
  {
    if Quiet(a) {
      QuietSame(s, a, id);
      SameBalanced(s, Apply(s, a), id, missed);
    } else if a.p in s.procs {
      KnownProc(s, a.p);
      if s.procs[a.p].id == id {
        OwnBalanced(s, a, id, missed);
      } else {
        OtherSame(s, a, id);
        SameBalanced(s, Apply(s, a), id, missed);
      }
    }
  }

  lemma MissedNext(acts: seq<Action>, a: Action, id: nat)
    ensures Missed(acts + [a], id) <==> Missed(acts, id) || Misses(Reach(acts), a, id)
  {
    var all := acts + [a];
    assert all[..|acts|] == acts && all[|acts|] == a;
    assert forall i :: 0 <= i < |acts| ==> all[..i] == acts[..i] && all[i] == acts[i];
    if Missed(acts, id) {
      var i :| 0 <= i < |acts| && Misses(Reach(acts[..i]), acts[i], id);
      assert Misses(Reach(all[..i]), all[i], id);
    }
  }

  lemma {:induction false} ReachBalanced(acts: seq<Action>, id: nat)
    ensures Balanced(Reach(acts), id, Missed(acts, id))
    decreases |acts|
  {
    if acts != [] {
      var before, a := acts[..|acts| - 1], acts[|acts| - 1];
      assert before + [a] == acts;
      ReachBalanced(before, id);
      ReachInv(before);
      ApplyBalanced(Reach(before), a, id, Missed(before, id));
      MissedNext(before, a, id);
    }
  }

  /** A normally finished run that restored bytes. */
  predicate Restores(hist: map<nat, Entry>, id: nat, drill: string) {
    id in hist && hist[id].drill == drill && hist[id].normal && hist[id].st.bytes > 0
  }

  /** The counter is the sum over the drill's normally finished runs if and only if none of those
      that restored bytes is still to count them, and none had its update lost on the way. */
  lemma CounterMissesExactly(acts: seq<Action>, drill: string)
    ensures var s := Reach(acts);
            Counter(s.db, drill) == RestoredBytes(s.hist, s.db.nextId, drill, false) <==>
              forall id :: Restores(s.hist, id, drill) ==> !Owing(s, id) && !Missed(acts, id)
  {
    var s := Reach(acts);
    CounterConservation(acts, drill);
    forall id: nat ensures Uncounted(s.hist, id, drill) <==> Restores(s.hist, id, drill) && (Owing(s, id) || Missed(acts, id)) {
      ReachBalanced(acts, id);
    }
  }

  const ONE_LEVEL := Drill("db", true, false, false, 0, 0)

  const LOST_UPDATE: seq<Action> := [
    Begin(0, ONE_LEVEL, None, 1, 0, Acked),
    ExecLevel(0, Answered(Pass, "s", 1, 10, 1)),
    WriteStep(0, Acked),
    Finish(0, 2, Acked),
    Count(0, Failed)]

  lemma ReachStep(acts: seq<Action>, k: nat)
    requires k < |acts|
    ensures Reach(acts[..k + 1]) == Apply(Reach(acts[..k]), acts[k])
  {
    assert acts[..k + 1][..k] == acts[..k];
  }

  lemma StrictHead(levels: seq<Level>)
    requires Ascending(levels) && |levels| >= 2
    ensures levels[0] != levels[1]
  {
    assert Rank(levels[0]) < Rank(levels[1]);
  }

  lemma OnlyOne(levels: seq<Level>, lv: Level)
    requires Ascending(levels) && levels != [] && forall i :: 0 <= i < |levels| ==> levels[i] == lv
    ensures levels == [lv]
  {
    if |levels| >= 2 {
      StrictHead(levels);
      assert false;
    }
  }

  lemma OneLevelSelected()
    ensures SelectLevels(ONE_LEVEL, None) == Some([L1])
  {
    SelectLevelsExact(ONE_LEVEL, None);
    var out := SelectLevels(ONE_LEVEL, None).value;
    assert Wanted(ONE_LEVEL, None, L1) && !Wanted(ONE_LEVEL, None, L2) && !Wanted(ONE_LEVEL, None, L3);
    assert L1 in out;
    forall i | 0 <= i < |out| ensures out[i] == L1 {
      assert out[i] in out && Wanted(ONE_LEVEL, None, out[i]);
    }
    OnlyOne(out, L1);
  }

  const PASSED: Progress := Progress([LevelOutcome(L1, Ran(Pass), 10)], false, Some(L1), LevelState("s", 1, 10, 1))

  lemma StartReached()
    ensures var s := Reach(LOST_UPDATE[..1]);
            && s.procs == map[0 := Proc(1, ONE_LEVEL, 1, ZERO_TIME, [L1], START, Looping)]
            && s.hist == map[1 := NewEntry("db", 1, Running)]
            && s.db.runs == map[1 := NewRow("db", 1)] && s.db.counters == map[]
  {
    OneLevelSelected();
    ReachStep(LOST_UPDATE, 0);
    assert LOST_UPDATE[..0] == [] && Reach([]) == INITIAL;
  }

  lemma LevelReached()
    ensures var s := Reach(LOST_UPDATE[..3]);
            && s.procs == map[0 := Proc(1, ONE_LEVEL, 1, ZERO_TIME, [], PASSED, Looping)]
            && s.hist == map[1 := NewEntry("db", 1, Running)]
            && s.db.runs == map[1 := NewRow("db", 1)] && s.db.counters == map[]
  {
    StartReached();
    ReachStep(LOST_UPDATE, 1);
    var pending := Execute(START, L1, Answered(Pass, "s", 1, 10, 1));
    assert Reach(LOST_UPDATE[..2]).procs[0] == Proc(1, ONE_LEVEL, 1, ZERO_TIME, [L1], START, Writing(pending));
    ReachStep(LOST_UPDATE, 2);
    assert Commit(START, pending) == PASSED;
    assert [L1][1..] == [];
  }

  lemma CommitReached()
    ensures var s := Reach(LOST_UPDATE[..4]);
            Counts(s, 0, 1) && s.procs[0].prog == PASSED && s.procs[0].drill == ONE_LEVEL && 1 in s.hist
            && s.hist[1].drill == "db" && s.hist[1].normal && s.hist[1].st == PASSED.st && s.db.counters == map[]
  {
    LevelReached();
    ReachStep(LOST_UPDATE, 3);
  }

  /** A failed counter write: ten bytes were restored and the counter stays at zero. */
  lemma LostUpdate()
    ensures var s := Reach(LOST_UPDATE);
            Counter(s.db, "db") == 0 && Restores(s.hist, 1, "db") && s.hist[1].st.bytes == 10 && Missed(LOST_UPDATE, 1)
  {
    CommitReached();
    ReachStep(LOST_UPDATE, 4);
    assert LOST_UPDATE[..5] == LOST_UPDATE;
    assert Misses(Reach(LOST_UPDATE[..4]), LOST_UPDATE[4], 1);
  }
}
