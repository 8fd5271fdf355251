/** When a run's row is open: exactly until something settles it. */
module OpenRows {
  import opened Common
  import opened Store
  import opened RunMachine
  import opened RunInvariant
  import opened RunSteps
  import opened RunTheorems
  import opened Fates
  import Counting

  /** Retention takes the row away. */
  predicate Removes(s: Sys, a: Action, id: nat) {
    (a.PruneRuns? || a.Retain?) && id in s.db.runs && id !in Apply(s, a).db.runs
  }

  /** The startup marking, taking effect. */
  predicate Marks(a: Action) {
    a.MarkAbandoned? && !a.ack.Failed?
  }

  /** The run's own process commits a verdict: at the end of its loop or in the finalizer. */
  predicate CommitsOwn(s: Sys, a: Action, id: nat) {
    || (a.Finish? && Owns(s, a.p, id) && s.procs[a.p].phase.Looping? && s.procs[a.p].todo == [] && Commits(s.db, id, a.ack))
    || (a.Finalize? && Owns(s, a.p, id) && s.procs[a.p].phase.Aborting? && Commits(s.db, id, a.ack))
  }

  predicate Settles(s: Sys, a: Action, id: nat) {
    (Marks(a) && Open(s.db, id)) || CommitsOwn(s, a, id) || Removes(s, a, id)
  }

  ghost predicate Settled(acts: seq<Action>, id: nat) {
    exists i :: 0 <= i < |acts| && Settles(Reach(acts[..i]), acts[i], id)
  }

  lemma LoopOpenStep(s: Sys, a: Action, id: nat)
    requires LoopAction(a) && id < s.db.nextId && (id in s.db.runs ==> 1 <= id)
    ensures Open(Apply(s, a).db, id) <==> Open(s.db, id) && !Settles(s, a, id)
  {
    match a
    case ExecLevel(p, resp) =>
    case EvidenceFails(p) =>
    case WriteStep(p, ack) =>
    case Finish(p, end, ack) =>
    case Panic(p) =>
  }

  lemma TailOpenStep(s: Sys, a: Action, id: nat)
    requires TailAction(a) && id < s.db.nextId && (id in s.db.runs ==> 1 <= id)
    ensures Open(Apply(s, a).db, id) <==> Open(s.db, id) && !Settles(s, a, id)
  {
    match a
    case Finalize(p, end, ack) =>
    case Count(p, ack) =>
    case Prove(p, ack) =>
    case Retain(p, ack) =>
    case Crash(p) =>
  }

  lemma OpenStep(s: Sys, a: Action, id: nat)
    requires id < s.db.nextId && (id in s.db.runs ==> 1 <= id)
    ensures Open(Apply(s, a).db, id) <==> Open(s.db, id) && !Settles(s, a, id)
  {
    if LoopAction(a) {
      LoopOpenStep(s, a, id);
    } else if TailAction(a) {
      TailOpenStep(s, a, id);
    } else {
      match a
      case Begin(p, drill, only, start, gap, ack) =>
      case MarkAbandoned(now, ack) =>
      case PruneRuns(drill, maxAge, maxCount, now, ack) =>
    }
  }

  /** A run enters the history with its row open. */
  lemma OpenAtFirst(s: Sys, a: Action, id: nat)
    requires id !in s.hist && id in Apply(s, a).hist
    ensures Open(Apply(s, a).db, id)
  {
    assert a.Begin?;
  }

  lemma SettledNext(acts: seq<Action>, a: Action, id: nat)
    ensures Settled(acts + [a], id) <==> Settled(acts, id) || Settles(Reach(acts), a, id)
  {
    var all := acts + [a];
    assert all[..|acts|] == acts && all[|acts|] == a;
    assert forall i :: 0 <= i < |acts| ==> all[..i] == acts[..i] && all[i] == acts[i];
    if i :| 0 <= i < |acts| && Settles(Reach(acts[..i]), acts[i], id) {
      assert Settles(Reach(all[..i]), all[i], id);
    }
  }

  lemma HistoryStays(before: seq<Action>, a: Action, id: nat)
    requires id in Reach(before).hist
    ensures id in Reach(before + [a]).hist
  {
    TraceEvolves(before, [a]);
  }

  /** For every trace and every run in it: its row is open if and only if nothing settled it, be it
      its own process committing a verdict, the startup marking, or retention. */
  lemma {:induction false} OpenExactly(acts: seq<Action>, id: nat)
    ensures id in Reach(acts).hist ==> (Open(Reach(acts).db, id) <==> !Settled(acts, id))
    ensures id !in Reach(acts).hist ==> !Settled(acts, id)
    decreases |acts|
  {
    if acts != [] {
      var before, a := acts[..|acts| - 1], acts[|acts| - 1];
      assert before + [a] == acts;
      var s := Reach(before);
      PlayAppend(before, a);
      OpenExactly(before, id);
      SettledNext(before, a, id);
      ReachInv(before);
      if id in s.hist {
        HistoryStays(before, a, id);
        OpenStep(s, a, id);
      } else {
        assert id !in s.db.runs;
        if id in Reach(acts).hist {
          OpenAtFirst(s, a, id);
        }
      }
    }
  }

  lemma PlayAppend(acts: seq<Action>, a: Action)
    ensures Reach(acts + [a]) == Apply(Reach(acts), a)
  {
    assert (acts + [a])[..|acts|] == acts;
  }

  // ---- runs that ended without a verdict ----

  /** A run no process executes is never taken up again. */
  lemma NeverTakenUp(s: Sys, a: Action, id: nat)
    requires id in s.hist && id < s.db.nextId && !Executing(s, id) && ProcsOk(s)
    ensures !Executing(Apply(s, a), id)
  {
    forall p ensures !Owns(Apply(s, a), p, id) {
      if p in s.procs {
        assert ProcOk(s, s.procs[p]);
        assert !Owns(s, p, id);
      }
      NotOwned(s, a, p, id);
    }
  }

  lemma NotOwned(s: Sys, a: Action, p: nat, id: nat)
    requires id < s.db.nextId && (p in s.procs ==> s.procs[p].id != id)
    ensures !Owns(Apply(s, a), p, id)
  {
    if LoopAction(a) {
      match a
      case ExecLevel(q, resp) =>
      case EvidenceFails(q) =>
      case WriteStep(q, ack) =>
      case Finish(q, end, ack) =>
      case Panic(q) =>
    } else if TailAction(a) {
      match a
      case Finalize(q, end, ack) =>
      case Count(q, ack) =>
      case Prove(q, ack) =>
      case Retain(q, ack) =>
      case Crash(q) =>
    }
  }

  /** Someone else closes or removes the row. */
  predicate ClosedByOthers(s: Sys, a: Action, id: nat) {
    Marks(a) || Removes(s, a, id)
  }

  ghost predicate Spared(acts: seq<Action>, more: seq<Action>, id: nat) {
    forall i :: 0 <= i < |more| ==> !ClosedByOthers(Reach(acts + more[..i]), more[i], id)
  }

  lemma SparedNext(acts: seq<Action>, more: seq<Action>, a: Action, id: nat)
    ensures Spared(acts, more + [a], id) <==> Spared(acts, more, id) && !ClosedByOthers(Reach(acts + more), a, id)
  {
    var all := more + [a];
    assert all[..|more|] == more && all[|more|] == a;
    assert forall i :: 0 <= i < |more| ==> all[..i] == more[..i] && all[i] == more[i];
  }

  lemma CommitNeedsOwner(s: Sys, a: Action, id: nat)
    ensures CommitsOwn(s, a, id) ==> Executing(s, id)
  {
  }

  lemma EndedIsNotExecuting(s: Sys, id: nat)
    requires ProcsOk(s) && id in s.hist && !s.hist[id].fate.Running?
    ensures !Executing(s, id)
  {
    forall p ensures !Owns(s, p, id) {
      assert p in s.procs ==> ProcOk(s, s.procs[p]);
    }
  }

  lemma {:induction false} LeftAlone(acts: seq<Action>, more: seq<Action>, id: nat)
    requires id in Reach(acts).hist && !Executing(Reach(acts), id) && Open(Reach(acts).db, id)
    ensures id in Reach(acts + more).hist && !Executing(Reach(acts + more), id)
    ensures Open(Reach(acts + more).db, id) <==> Spared(acts, more, id)
    decreases |more|
  {
    if more == [] {
      assert acts + more == acts;
    } else {
      var prev, a := more[..|more| - 1], more[|more| - 1];
      assert prev + [a] == more && (acts + prev) + [a] == acts + more;
      LeftAlone(acts, prev, id);
      var s := Reach(acts + prev);
      ReachInv(acts + prev);
      PlayAppend(acts + prev, a);
      HistoryStays(acts + prev, a, id);
      NeverTakenUp(s, a, id);
      OpenStep(s, a, id);
      SparedNext(acts, prev, a, id);
      CommitNeedsOwner(s, a, id);
    }
  }

  /** The converse of `NoZombies`: when a crash, an unheard insert or a failed finalizer ends a run
      that has its row and no verdict, the row is open from then on, until exactly the next marking
      or the retention that removes it. */
  lemma EndedLeavesOpen(acts: seq<Action>, a: Action, more: seq<Action>, id: nat, f: Fate)
    requires CausedBy(Reach(acts), a, id, f) && id in Reach(acts + [a]).hist && Reach(acts + [a]).hist[id].fate == f
    requires id in Reach(acts + [a]).db.runs && Reach(acts + [a]).hist[id].verdict.None?
    ensures Open(Reach(acts + [a]).db, id)
    ensures Open(Reach(acts + [a] + more).db, id) <==> Spared(acts + [a], more, id)
  {
    var t := Reach(acts + [a]);
    ReachInv(acts + [a]);
    assert RowOk(t.db, id, t.db.runs[id], t.hist[id]);
    EndedIsNotExecuting(t, id);
    LeftAlone(acts + [a], more, id);
  }

  const UNFINALIZED: seq<Action> := [Begin(0, Counting.ONE_LEVEL, None, 1, 0, Acked), Panic(0), Finalize(0, 2, Failed)]

  /** A panic in the loop and a finalizer whose write has no effect: the row stays open. */
  lemma FailedFinalizer()
    ensures var s := Reach(UNFINALIZED);
            Open(s.db, 1) && 1 in s.hist && s.hist[1].fate == FinalizeFailed && !Executing(s, 1)
  {
    Counting.OneLevelSelected();
    Counting.ReachStep(UNFINALIZED, 0);
    assert UNFINALIZED[..0] == [] && Reach([]) == INITIAL;
    Counting.ReachStep(UNFINALIZED, 1);
    Counting.ReachStep(UNFINALIZED, 2);
    assert UNFINALIZED[..3] == UNFINALIZED;
  }
}
