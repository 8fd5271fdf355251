/** Every passing outcome the machine remembers was a passing answer of the executor, earlier in the trace. */
module RestoreTrace {
  import opened Common
  import opened Levels
  import opened RunMachine

  /** After the trace `before`, action a is the executor passing level lv of run id. */
  predicate ExecPasses(before: seq<Action>, a: Action, id: nat, lv: Level) {
    && a.ExecLevel? && a.resp.Answered? && a.resp.status == Pass
    && var s := Reach(before);
       && Known(s, a.p) && s.procs[a.p].id == id
       && s.procs[a.p].phase.Looping? && s.procs[a.p].todo != [] && s.procs[a.p].todo[0] == lv
       && !s.procs[a.p].prog.shortCircuit
  }

  /** Somewhere in the trace the executor passed level lv of run id. */
  ghost predicate ExecutorPassed(acts: seq<Action>, id: nat, lv: Level) {
    exists i :: 0 <= i < |acts| && ExecPasses(acts[..i], acts[i], id, lv)
  }

  ghost predicate DoneOk(acts: seq<Action>, id: nat, done: seq<LevelOutcome>) {
    forall i :: 0 <= i < |done| && done[i].outcome == Ran(Pass) ==> ExecutorPassed(acts, id, done[i].level)
  }

  ghost predicate ProcTraced(acts: seq<Action>, q: Proc) {
    && DoneOk(acts, q.id, q.prog.done)
    && (q.phase.Writing? ==> DoneOk(acts, q.id, [q.phase.pending.result]))
  }

  ghost predicate Traced(acts: seq<Action>, s: Sys) {
    && (forall p :: p in s.procs ==> ProcTraced(acts, s.procs[p]))
    && (forall id :: id in s.hist ==> DoneOk(acts, id, s.hist[id].done))
  }

  lemma PassedLater(acts: seq<Action>, a: Action, id: nat, lv: Level)
    requires ExecutorPassed(acts, id, lv)
    ensures ExecutorPassed(acts + [a], id, lv)
  {
    var i :| 0 <= i < |acts| && ExecPasses(acts[..i], acts[i], id, lv);
    var all := acts + [a];
    assert all[..i] == acts[..i] && all[i] == acts[i];
    assert ExecPasses(all[..i], all[i], id, lv);
  }

  lemma DoneLater(acts: seq<Action>, a: Action, id: nat, done: seq<LevelOutcome>)
    requires DoneOk(acts, id, done)
    ensures DoneOk(acts + [a], id, done)
  {
    forall i | 0 <= i < |done| && done[i].outcome == Ran(Pass) ensures ExecutorPassed(acts + [a], id, done[i].level) {
      PassedLater(acts, a, id, done[i].level);
    }
  }

  lemma TracedLater(acts: seq<Action>, a: Action, s: Sys)
    requires Traced(acts, s)
    ensures Traced(acts + [a], s)
  {
    forall p | p in s.procs ensures ProcTraced(acts + [a], s.procs[p]) {
      assert ProcTraced(acts, s.procs[p]);
      DoneLater(acts, a, s.procs[p].id, s.procs[p].prog.done);
      if s.procs[p].phase.Writing? {
        DoneLater(acts, a, s.procs[p].id, [s.procs[p].phase.pending.result]);
      }
    }
    forall id | id in s.hist ensures DoneOk(acts + [a], id, s.hist[id].done) {
      DoneLater(acts, a, id, s.hist[id].done);
    }
  }

  lemma DoneAppend(acts: seq<Action>, id: nat, done: seq<LevelOutcome>, o: LevelOutcome)
    requires DoneOk(acts, id, done) && DoneOk(acts, id, [o])
    ensures DoneOk(acts, id, done + [o])
  {
    assert [o][0] == o;
  }

  /** The executor's answer is the one new fact a trace can add. */
  lemma ExecTraced(acts: seq<Action>, p: nat, resp: Response)
    requires Traced(acts + [ExecLevel(p, resp)], Reach(acts)) && Known(Reach(acts), p)
    ensures Traced(acts + [ExecLevel(p, resp)], DoExec(Reach(acts), p, resp))
  {
    var s := Reach(acts);
    var all := acts + [ExecLevel(p, resp)];
    var q := s.procs[p];
    var t := DoExec(s, p, resp);
    assert ProcTraced(all, q);
    if q.phase.Looping? && q.todo != [] {
      var o := Execute(q.prog, q.todo[0], resp).result;
      if o.outcome == Ran(Pass) {
        assert all[..|acts|] == acts;
        assert ExecPasses(all[..|acts|], all[|acts|], q.id, q.todo[0]);
      }
      assert DoneOk(all, q.id, [o]);
      assert ProcTraced(all, t.procs[p]);
    }
  }

  lemma StepTracedProc(acts: seq<Action>, s: Sys, a: Action, p: nat)
    requires !a.ExecLevel? && p in Apply(s, a).procs
    requires p in s.procs ==> ProcTraced(acts, s.procs[p])
    ensures ProcTraced(acts, Apply(s, a).procs[p])
  {
    if p in s.procs && a.WriteStep? && a.p == p && s.procs[p].phase.Writing? {
      DoneAppend(acts, s.procs[p].id, s.procs[p].prog.done, s.procs[p].phase.pending.result);
    }
  }

  lemma StepTracedEntry(acts: seq<Action>, s: Sys, a: Action, id: nat)
    requires !a.ExecLevel? && id in Apply(s, a).hist
    requires id in s.hist ==> DoneOk(acts, id, s.hist[id].done)
    requires a.Finish? && a.p in s.procs ==> ProcTraced(acts, s.procs[a.p])
    ensures DoneOk(acts, id, Apply(s, a).hist[id].done)
  {
  }

  lemma StepTraced(acts: seq<Action>, s: Sys, a: Action)
    requires Traced(acts, s) && !a.ExecLevel?
    ensures Traced(acts, Apply(s, a))
  {
    forall p | p in Apply(s, a).procs ensures ProcTraced(acts, Apply(s, a).procs[p]) {
      StepTracedProc(acts, s, a, p);
    }
    forall id | id in Apply(s, a).hist ensures DoneOk(acts, id, Apply(s, a).hist[id].done) {
      StepTracedEntry(acts, s, a, id);
    }
  }

  lemma {:induction false} ReachTraced(acts: seq<Action>)
    ensures Traced(acts, Reach(acts))
    decreases |acts|
  {
    if acts != [] {
      var n := |acts| - 1;
      var before, a := acts[..n], acts[n];
      ReachTraced(before);
      TracedLater(before, a, Reach(before));
      assert before + [a] == acts;
      if a.ExecLevel? {
        if Known(Reach(before), a.p) {
          ExecTraced(before, a.p, a.resp);
        }
      } else {
        StepTraced(acts, Reach(before), a);
      }
    }
  }
}
