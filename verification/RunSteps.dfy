/** Every action of the run machine keeps the invariant. */
module RunSteps {
  import opened Common
  import opened Store
  import opened Levels
  import opened RunMachine
  import opened RunInvariant

  /** Only the row and steps of run `id` differ between the two stores. */
  ghost predicate OnlyRun(db: Db, db': Db, id: nat) {
    && db'.nextId == db.nextId
    && (forall j :: j != id ==> (j in db'.runs <==> j in db.runs) && StepsOf(db', j) == StepsOf(db, j))
    && (forall j :: j != id && j in db.runs ==> db'.runs[j] == db.runs[j])
    && (id in db'.runs ==> id in db.runs)
  }

  /** A step of process p that touches its own run only. */
  lemma OwnStep(s: Sys, t: Sys, p: nat, e: Entry)
    requires RunsOk(s) && p in s.procs
    requires var id := s.procs[p].id;
             && OnlyRun(s.db, t.db, id)
             && t.hist == s.hist[id := e]
             && EntryOk(e) && e.drill == s.hist[id].drill && e.start == s.hist[id].start
             && (id in t.db.runs ==> RowOk(t.db, id, t.db.runs[id], e))
             && (t.procs == s.procs - {p} || (p in t.procs && t.procs == s.procs[p := t.procs[p]] && t.procs[p].id == id && ProcOk(t, t.procs[p])))
    ensures RunsOk(t)
  {
    var id := s.procs[p].id;
    forall j | j in t.procs ensures ProcOk(t, t.procs[j]) {
      if j != p {
        assert ProcOk(s, s.procs[j]) && s.procs[j].id != id;
      }
    }
    forall j | j in t.db.runs ensures j in t.hist && RowOk(t.db, j, t.db.runs[j], t.hist[j]) {
      if j != id {
        assert RowOk(s.db, j, s.db.runs[j], s.hist[j]);
      }
    }
  }

  /** A step that changes neither proofs nor counters, and no entry in what they depend on. */
  lemma QuietStep(s: Sys, t: Sys, p: nat, e: Entry)
    requires Inv(s) && p in s.procs && RunsOk(t)
    requires s.procs[p].id in s.hist && t.hist == s.hist[s.procs[p].id := e]
    requires var o := s.hist[s.procs[p].id];
             e.drill == o.drill && e.start == o.start && e.proved == o.proved && e.counted == o.counted && (o.counted ==> e.st == o.st)
    requires t.db.proofs == s.db.proofs && t.db.counters == s.db.counters && t.db.nextId == s.db.nextId
    ensures Inv(t)
  {
    ProofsFrame(s, t);
    CountersFrame(s, t);
  }

  /** A fresh run, with or without a process of its own. */
  lemma FreshRun(s: Sys, t: Sys, id: nat, drill: string, start: Time, fate: Fate)
    requires RunsOk(s) && s.db.nextId <= id && drill != "" && start != ZERO_TIME && fate != Returned
    requires t.db == s.db.(runs := s.db.runs[id := NewRow(drill, start)], nextId := id + 1, steps := s.db.steps[id := []])
    requires t.hist == s.hist[id := NewEntry(drill, start, fate)]
    ensures id !in s.hist && EntriesOk(t) && RowsOk(t)
  {
    assert id !in s.hist;
    forall j | j in t.db.runs ensures j in t.hist && RowOk(t.db, j, t.db.runs[j], t.hist[j]) {
      if j != id {
        assert RowOk(s.db, j, s.db.runs[j], s.hist[j]);
      }
    }
  }

  /** A fresh run is nothing to a process of another run. */
  lemma FreshRunApart(s: Sys, t: Sys, id: nat, q: Proc, row: Row, e: Entry)
    requires ProcOk(s, q) && id !in s.hist
    requires t.db.runs == s.db.runs[id := row] && t.db.steps == s.db.steps[id := []] && t.hist == s.hist[id := e]
    ensures ProcOk(t, q) && q.id != id
  {
  }

  lemma FreshProc(t: Sys, q: Proc)
    requires q.prog == START && q.phase == Looping && StepsOf(t.db, q.id) == []
    requires q.id in t.hist && t.hist[q.id] == NewEntry(q.drill.name, q.start, Running)
    ensures ProcOk(t, q)
  {
    assert StepsOf(t.db, q.id) == StepRows([]);
  }

  lemma StartedProcs(s: Sys, t: Sys, p: nat, q: Proc)
    requires IdsOk(s) && ProcsOk(s) && p !in s.procs && q.id !in s.hist && q.prog == START && q.phase == Looping
    requires t.db.runs == s.db.runs[q.id := NewRow(q.drill.name, q.start)] && t.db.steps == s.db.steps[q.id := []]
    requires t.hist == s.hist[q.id := NewEntry(q.drill.name, q.start, Running)] && t.procs == s.procs[p := q]
    ensures ProcsOk(t)
    ensures forall p1, p2 :: p1 in t.procs && p2 in t.procs && p1 != p2 ==> t.procs[p1].id != t.procs[p2].id
  {
    FreshProc(t, q);
    forall j | j in s.procs ensures ProcOk(t, s.procs[j]) && s.procs[j].id != q.id {
      FreshRunApart(s, t, q.id, s.procs[j], NewRow(q.drill.name, q.start), t.hist[q.id]);
    }
  }

  lemma StartedRun(s: Sys, t: Sys, p: nat, q: Proc)
    requires RunsOk(s) && p !in s.procs && s.db.nextId <= q.id && q.drill.name != "" && q.start != ZERO_TIME
    requires q.prog == START && q.phase == Looping
    requires t.db == s.db.(runs := s.db.runs[q.id := NewRow(q.drill.name, q.start)], nextId := q.id + 1, steps := s.db.steps[q.id := []])
    requires t.hist == s.hist[q.id := NewEntry(q.drill.name, q.start, Running)]
    requires t.procs == s.procs[p := q]
    ensures RunsOk(t)
  {
    FreshRun(s, t, q.id, q.drill.name, q.start, Running);
    StartedProcs(s, t, p, q);
  }

  lemma OrphanRun(s: Sys, t: Sys, id: nat, drill: string, start: Time)
    requires RunsOk(s) && s.db.nextId <= id && drill != "" && start != ZERO_TIME
    requires t.db == s.db.(runs := s.db.runs[id := NewRow(drill, start)], nextId := id + 1, steps := s.db.steps[id := []])
    requires t.hist == s.hist[id := NewEntry(drill, start, CreateUnheard)]
    requires t.procs == s.procs
    ensures RunsOk(t)
  {
    FreshRun(s, t, id, drill, start, CreateUnheard);
    forall j | j in t.procs ensures ProcOk(t, t.procs[j]) {
      FreshRunApart(s, t, id, s.procs[j], NewRow(drill, start), t.hist[id]);
    }
  }

  /** A fresh run proves and counts nothing. */
  lemma FreshQuiet(s: Sys, t: Sys, id: nat)
    requires IdsOk(s) && ProofsOk(s) && CountersOk(s) && id !in s.hist && s.db.nextId <= t.db.nextId
    requires t.db.proofs == s.db.proofs && t.db.counters == s.db.counters
    requires id in t.hist && t.hist == s.hist[id := t.hist[id]] && t.hist[id].proved == {} && !t.hist[id].counted
    ensures ProofsOk(t) && CountersOk(t)
  {
    ProofsFrame(s, t);
    CountersFrame(s, t);
  }

  lemma BeginKeeps(s: Sys, p: nat, drill: Drill, only: Option<Level>, start: Time, gap: nat, ack: Ack)
    requires Inv(s)
    ensures Inv(DoBegin(s, p, drill, only, start, gap, ack))
  {
    var t := DoBegin(s, p, drill, only, start, gap, ack);
    var levels := SelectLevels(drill, only);
    if !(p in s.procs || levels.None? || drill.name == "" || start == ZERO_TIME || ack.Failed?) {
      var id := s.db.nextId + gap;
      assert id !in s.hist;
      if ack.Lost? {
        OrphanRun(s, t, id, drill.name, start);
      } else {
        StartedRun(s, t, p, Proc(id, drill, start, ZERO_TIME, levels.value, START, Looping));
      }
      FreshQuiet(s, t, id);
    }
  }

  lemma ExecKeeps(s: Sys, p: nat, resp: Response)
    requires Inv(s) && Known(s, p)
    ensures Inv(DoExec(s, p, resp))
  {
    var q := s.procs[p];
    assert ProcOk(s, q);
    var t := DoExec(s, p, resp);
    if t != s {
      CommitConsistent(q.prog, q.todo[0], resp);
      var e := s.hist[q.id];
      assert t.hist == s.hist[q.id := e];
      OwnStep(s, t, p, e);
      QuietStep(s, t, p, e);
    }
  }

  /** Moving to the finalizer keeps the invariant, whatever happened to the step row. */
  lemma UnwindKeeps(s: Sys, t: Sys, p: nat)
    requires Inv(s) && Known(s, p) && s.procs[p].phase.Writing?
    requires OnlyRun(s.db, t.db, s.procs[p].id) && t.db.runs == s.db.runs
    requires t.db.proofs == s.db.proofs && t.db.counters == s.db.counters
    requires t.hist == s.hist && t.procs == s.procs[p := Unwind(s.procs[p])]
    ensures Inv(t)
  {
    var q := s.procs[p];
    assert ProcOk(s, q);
    var e := s.hist[q.id];
    assert t.hist == s.hist[q.id := e];
    if q.id in t.db.runs {
      assert RowOk(s.db, q.id, s.db.runs[q.id], e);
    }
    OwnStep(s, t, p, e);
    QuietStep(s, t, p, e);
  }

  lemma StepRowsAppend(done: seq<LevelOutcome>, o: LevelOutcome)
    ensures StepRows(done + [o]) == StepRows(done) + [StepRowOf(o)]
  {
  }

  lemma EvidenceFailsKeeps(s: Sys, p: nat)
    requires Inv(s) && Known(s, p)
    ensures Inv(DoEvidenceFails(s, p))
  {
    if s.procs[p].phase.Writing? {
      UnwindKeeps(s, DoEvidenceFails(s, p), p);
    }
  }

  /** The step row is written and the loop goes on. */
  lemma CommitStepKeeps(s: Sys, t: Sys, p: nat)
    requires Inv(s) && Known(s, p) && s.procs[p].phase.Writing? && s.procs[p].todo != [] && s.procs[p].id in s.db.runs
    requires var q := s.procs[p];
             && t.db == s.db.(steps := s.db.steps[q.id := StepsOf(s.db, q.id) + [StepRowOf(q.phase.pending.result)]])
             && t.procs == s.procs[p := q.(todo := q.todo[1..], prog := Commit(q.prog, q.phase.pending), phase := Looping)]
             && t.hist == s.hist
    ensures Inv(t)
  {
    var q := s.procs[p];
    var e := s.hist[q.id];
    assert ProcOk(s, q);
    assert RowOk(s.db, q.id, s.db.runs[q.id], e);
    StepRowsAppend(q.prog.done, q.phase.pending.result);
    assert t.hist == s.hist[q.id := e];
    assert ProcOk(t, t.procs[p]);
    OwnStep(s, t, p, e);
    QuietStep(s, t, p, e);
  }

  lemma AddStepOnlyRun(db: Db, id: nat, row: StepRow, ack: Ack)
    ensures OnlyRun(db, Store.AddStep(db, id, row, ack).0, id)
  {
  }

  lemma WriteStepKeeps(s: Sys, p: nat, ack: Ack)
    requires Inv(s) && Known(s, p)
    ensures Inv(DoWriteStep(s, p, ack))
  {
    var q := s.procs[p];
    var t := DoWriteStep(s, p, ack);
    if q.phase.Writing? && q.todo != [] {
      if ack.Acked? && q.id in s.db.runs {
        CommitStepKeeps(s, t, p);
      } else {
        AddStepOnlyRun(s.db, q.id, StepRowOf(q.phase.pending.result), ack);
        UnwindKeeps(s, t, p);
      }
    }
  }

  /** The verdict is committed; whether the run hears of it decides its next phase. */
  lemma FinishCommits(s: Sys, t: Sys, p: nat, end: Time, phase: Phase)
    requires Inv(s) && Known(s, p) && s.procs[p].phase.Looping? && Open(s.db, s.procs[p].id)
    requires phase == Counting || phase == Aborting
    requires var q := s.procs[p]; var v := RunVerdict(q.prog.done);
             && t.db == s.db.(runs := s.db.runs[q.id := Closed(s.db.runs[q.id], FinalOf(q.prog, v, end))])
             && t.procs == s.procs[p := q.(phase := phase, end := end)]
             && t.hist == s.hist[q.id := s.hist[q.id].(verdict := Some(v), normal := true, done := q.prog.done, st := q.prog.st)]
    ensures Inv(t)
  {
    var q := s.procs[p];
    var e := t.hist[q.id];
    assert ProcOk(s, q);
    assert EntryOk(s.hist[q.id]);
    assert RowOk(s.db, q.id, s.db.runs[q.id], s.hist[q.id]);
    assert EntryOk(e);
    assert RowOk(t.db, q.id, t.db.runs[q.id], e);
    OwnStep(s, t, p, e);
    QuietStep(s, t, p, e);
  }

  /** The run's own store is untouched and only the finalizer is left. */
  lemma GiveUpKeeps(s: Sys, t: Sys, p: nat, end: Time)
    requires Inv(s) && Known(s, p) && s.procs[p].phase.Looping?
    requires t == s.(procs := s.procs[p := s.procs[p].(phase := Aborting, end := end)])
    ensures Inv(t)
  {
    var q := s.procs[p];
    var e := s.hist[q.id];
    assert ProcOk(s, q);
    assert t.hist == s.hist[q.id := e];
    assert EntryOk(e);
    if q.id in s.db.runs {
      assert RowOk(s.db, q.id, s.db.runs[q.id], e);
    }
    OwnStep(s, t, p, e);
    QuietStep(s, t, p, e);
  }

  lemma FinishKeeps(s: Sys, p: nat, end: Time, ack: Ack)
    requires Inv(s) && Known(s, p)
    ensures Inv(DoFinish(s, p, end, ack))
  {
    var q := s.procs[p];
    var t := DoFinish(s, p, end, ack);
    if q.phase.Looping? && q.todo == [] {
      if Commits(s.db, q.id, ack) {
        FinishCommits(s, t, p, end, if ack.Acked? then Counting else Aborting);
      } else {
        GiveUpKeeps(s, t, p, end);
      }
    }
  }

  /** A process leaves; `Run` returns only when its row is not left open. */
  lemma LeaveKeeps(s: Sys, p: nat, fate: Fate)
    requires Inv(s) && Known(s, p)
    requires fate == Returned ==> !Open(s.db, s.procs[p].id)
    ensures Inv(Leave(s, p, fate))
  {
    var q := s.procs[p];
    assert ProcOk(s, q);
    var t := Leave(s, p, fate);
    var e := t.hist[q.id];
    assert EntryOk(s.hist[q.id]);
    if q.id in s.db.runs {
      assert RowOk(s.db, q.id, s.db.runs[q.id], s.hist[q.id]);
    }
    OwnStep(s, t, p, e);
    QuietStep(s, t, p, e);
  }

  /** The finalizer's write, before the process leaves. */
  lemma FinalWriteKeeps(s: Sys, u: Sys, p: nat, f: Final, ack: Ack)
    requires Inv(s) && Known(s, p) && s.procs[p].phase.Aborting? && f.result == Error
    requires u.db == Store.FinishRun(s.db, s.procs[p].id, f, ack).0 && u.procs == s.procs
    requires u.hist == if Commits(s.db, s.procs[p].id, ack) then s.hist[s.procs[p].id := s.hist[s.procs[p].id].(verdict := Some(Error))] else s.hist
    ensures Inv(u)
  {
    var q := s.procs[p];
    assert ProcOk(s, q);
    var e := u.hist[q.id];
    assert u.hist == s.hist[q.id := e];
    assert EntryOk(s.hist[q.id]);
    if q.id in s.db.runs {
      assert RowOk(s.db, q.id, s.db.runs[q.id], s.hist[q.id]);
    }
    assert ProcOk(u, q);
    assert u.procs == s.procs[p := u.procs[p]];
    OwnStep(s, u, p, e);
    QuietStep(s, u, p, e);
  }

  lemma FinalizeKeeps(s: Sys, p: nat, end: Time, ack: Ack)
    requires Inv(s) && Known(s, p)
    ensures Inv(DoFinalize(s, p, end, ack))
  {
    var q := s.procs[p];
    if q.phase.Aborting? {
      var f := FinalOf(q.prog, Error, end);
      var hist := if Commits(s.db, q.id, ack) then s.hist[q.id := s.hist[q.id].(verdict := Some(Error))] else s.hist;
      var u := s.(db := Store.FinishRun(s.db, q.id, f, ack).0, hist := hist);
      FinalWriteKeeps(s, u, p, f, ack);
      LeaveKeeps(u, p, if ack.Failed? then FinalizeFailed else Returned);
    }
  }

  lemma {:induction false} PassLevelsPassed(done: seq<LevelOutcome>, lv: Level)
    ensures lv in PassLevels(done) <==> PassedAt(done, lv)
    decreases |done|
  {
    if done != [] {
      var rest := done[..|done| - 1];
      PassLevelsPassed(rest, lv);
      var o := done[|done| - 1];
      if PassedAt(rest, lv) {
        var i :| 0 <= i < |rest| && rest[i].level == lv && rest[i].outcome == Ran(Pass);
        assert done[i] == rest[i];
      }
      if PassedAt(done, lv) && !(o.level == lv && o.outcome == Ran(Pass)) {
        var i :| 0 <= i < |done| && done[i].level == lv && done[i].outcome == Ran(Pass);
        assert i < |rest| && rest[i] == done[i];
      }
    }
  }

  lemma CountKeepsRuns(s: Sys, p: nat, ack: Ack)
    requires RunsOk(s) && Known(s, p) && s.procs[p].phase.Counting?
    ensures RunsOk(DoCount(s, p, ack))
  {
    var q := s.procs[p];
    assert ProcOk(s, q);
    var t := DoCount(s, p, ack);
    var e := t.hist[q.id];
    assert t.hist == s.hist[q.id := e];
    assert EntryOk(s.hist[q.id]);
    if q.id in s.db.runs {
      assert RowOk(s.db, q.id, s.db.runs[q.id], s.hist[q.id]);
    }
    forall lv | lv in t.procs[p].phase.todo ensures PassedAt(e.done, lv) {
      PassLevelsPassed(q.prog.done, lv);
    }
    assert ProcOk(t, t.procs[p]);
    OwnStep(s, t, p, e);
  }

  /** Marking one run as counted adds exactly its bytes. */
  lemma {:induction false} RestoredBump(h: map<nat, Entry>, id: nat, e: Entry, n: nat, drill: string)
    requires id in h && e == h[id].(counted := true) && !h[id].counted
    ensures RestoredBytes(h[id := e], n, drill, true)
         == RestoredBytes(h, n, drill, true) + if id < n && e.drill == drill && e.st.bytes > 0 then e.st.bytes else 0
    decreases n
  {
    if n > 0 {
      RestoredBump(h, id, e, n - 1, drill);
    }
  }

  lemma CountKeeps(s: Sys, p: nat, ack: Ack)
    requires Inv(s) && Known(s, p)
    ensures Inv(DoCount(s, p, ack))
  {
    var q := s.procs[p];
    assert ProcOk(s, q);
    var t := DoCount(s, p, ack);
    if q.phase.Counting? {
      CountKeepsRuns(s, p, ack);
      ProofsFrame(s, t);
      if ack.Failed? {
        CountersFrame(s, t);
      } else {
        var e := t.hist[q.id];
        assert t.hist == s.hist[q.id := e];
        forall drill ensures Counter(t.db, drill) == RestoredBytes(t.hist, t.db.nextId, drill, true) {
          RestoredBump(s.hist, q.id, e, s.db.nextId, drill);
          assert Counter(s.db, drill) == RestoredBytes(s.hist, s.db.nextId, drill, true);
        }
      }
    }
  }

  lemma ProveKeepsProofs(s: Sys, t: Sys, id: nat, lv: Level, ack: Ack)
    requires ProofsOk(s) && id in s.hist && s.hist[id].drill != "" && s.hist[id].start != ZERO_TIME && !ack.Failed?
    requires t.db == Store.RecordProof(s.db, s.hist[id].drill, lv, s.hist[id].start, ack).0
    requires id in t.hist && t.hist == s.hist[id := t.hist[id]]
    requires t.hist[id].drill == s.hist[id].drill && t.hist[id].start == s.hist[id].start && t.hist[id].proved == s.hist[id].proved + {lv}
    ensures ProofsOk(t)
  {
    var key := (s.hist[id].drill, lv);
    forall drill, l | (drill, l) in t.db.proofs ensures ProofOk(t, drill, l, t.db.proofs[(drill, l)]) {
      if (drill, l) == key && t.db.proofs[key] == s.hist[id].start {
        assert Recorded(t.hist, id, drill, l, t.db.proofs[key]);
      } else {
        var j :| Recorded(s.hist, j, drill, l, s.db.proofs[(drill, l)]);
        assert Recorded(t.hist, j, drill, l, t.db.proofs[(drill, l)]);
      }
    }
  }

  lemma ProveKeepsRuns(s: Sys, t: Sys, p: nat, ack: Ack)
    requires RunsOk(s) && Known(s, p) && s.procs[p].phase.Proving? && s.procs[p].phase.todo != []
    requires t == ProveStep(s, p, ack)
    ensures RunsOk(t)
  {
    var q := s.procs[p];
    assert ProcOk(s, q);
    var e := t.hist[q.id];
    assert t.hist == s.hist[q.id := e];
    assert EntryOk(s.hist[q.id]);
    if q.id in s.db.runs {
      assert RowOk(s.db, q.id, s.db.runs[q.id], s.hist[q.id]);
    }
    assert q.phase.todo[0] in q.phase.todo;
    assert ProcOk(t, t.procs[p]);
    OwnStep(s, t, p, e);
  }

  /** A process recording proofs has committed its verdict. */
  lemma ProvingIsClosed(s: Sys, p: nat)
    requires RunsOk(s) && p in s.procs && s.procs[p].phase.Proving?
    ensures !Open(s.db, s.procs[p].id)
  {
    var id := s.procs[p].id;
    assert ProcOk(s, s.procs[p]);
    assert EntryOk(s.hist[id]);
    if id in s.db.runs {
      assert RowOk(s.db, id, s.db.runs[id], s.hist[id]);
    }
  }

  lemma ProveStepKeeps(s: Sys, p: nat, ack: Ack)
    requires Inv(s) && Known(s, p) && s.procs[p].phase.Proving? && s.procs[p].phase.todo != []
    ensures Inv(ProveStep(s, p, ack))
  {
    var q := s.procs[p];
    assert ProcOk(s, q);
    assert EntryOk(s.hist[q.id]);
    var t := ProveStep(s, p, ack);
    ProveKeepsRuns(s, t, p, ack);
    CountersFrame(s, t);
    if ack.Failed? {
      ProofsFrame(s, t);
    } else {
      ProveKeepsProofs(s, t, q.id, q.phase.todo[0], ack);
    }
  }

  lemma ProveKeeps(s: Sys, p: nat, ack: Ack)
    requires Inv(s) && Known(s, p)
    ensures Inv(DoProve(s, p, ack))
  {
    var q := s.procs[p];
    if q.phase.Proving? && q.phase.todo != [] {
      ProveStepKeeps(s, p, ack);
      var t := ProveStep(s, p, ack);
      ProvingIsClosed(t, p);
      LeaveKeeps(t, p, Returned);
    }
  }

  /** Deleting rows with their steps keeps the invariant. */
  lemma DeleteKeeps(s: Sys, t: Sys)
    requires Inv(s)
    requires t.procs == s.procs && t.hist == s.hist
    requires t.db.nextId == s.db.nextId && t.db.proofs == s.db.proofs && t.db.counters == s.db.counters
    requires forall id :: id in t.db.runs ==> id in s.db.runs && t.db.runs[id] == s.db.runs[id] && StepsOf(t.db, id) == StepsOf(s.db, id)
    ensures Inv(t)
  {
    forall j | j in t.procs ensures ProcOk(t, t.procs[j]) {
      assert ProcOk(s, s.procs[j]);
    }
    forall j | j in t.db.runs ensures j in t.hist && RowOk(t.db, j, t.db.runs[j], t.hist[j]) {
      assert RowOk(s.db, j, s.db.runs[j], s.hist[j]);
    }
    ProofsFrame(s, t);
    CountersFrame(s, t);
  }

  lemma PruneKeeps(s: Sys, drill: string, maxAge: int, maxCount: int, now: Time, ack: Ack)
    requires Inv(s)
    ensures Inv(s.(db := Store.Prune(s.db, drill, maxAge, maxCount, now, ack).0))
  {
    DeleteKeeps(s, s.(db := Store.Prune(s.db, drill, maxAge, maxCount, now, ack).0));
  }

  lemma RetainKeeps(s: Sys, p: nat, ack: Ack)
    requires Inv(s) && Known(s, p)
    ensures Inv(DoRetain(s, p, ack))
  {
    var q := s.procs[p];
    assert ProcOk(s, q);
    if q.phase.Proving? && q.phase.todo == [] {
      PruneKeeps(s, q.drill.name, q.drill.maxAge, q.drill.maxCount, q.end, ack);
      var u := s.(db := Store.Prune(s.db, q.drill.name, q.drill.maxAge, q.drill.maxCount, q.end, ack).0);
      assert EntryOk(s.hist[q.id]);
      LeaveKeeps(u, p, Returned);
    }
  }

  lemma PanicKeeps(s: Sys, p: nat)
    requires Inv(s) && Known(s, p)
    ensures Inv(DoPanic(s, p))
  {
    var q := s.procs[p];
    assert ProcOk(s, q);
    var t := DoPanic(s, p);
    if q.phase.Writing? {
      UnwindKeeps(s, t, p);
    } else if q.phase.Looping? {
      GiveUpKeeps(s, t, p, q.end);
    }
  }

  lemma MarkKeepsRun(s: Sys, t: Sys, id: nat, now: Time)
    requires id in s.hist && EntryOk(s.hist[id]) && (id in s.db.runs ==> RowOk(s.db, id, s.db.runs[id], s.hist[id]))
    requires t.db.runs.Keys == s.db.runs.Keys && t.db.steps == s.db.steps
    requires id in s.db.runs ==> t.db.runs[id] == Abandon(s.db.runs[id], now)
    requires id in t.hist && t.hist[id] == if Open(s.db, id) then s.hist[id].(verdict := Some(Error)) else s.hist[id]
    ensures EntryOk(t.hist[id]) && (id in t.db.runs ==> RowOk(t.db, id, t.db.runs[id], t.hist[id]))
    ensures forall q: Proc :: q.id == id && ProcOk(s, q) ==> ProcOk(t, q)
  {
  }

  lemma MarkKeeps(s: Sys, now: Time, ack: Ack)
    requires Inv(s)
    ensures Inv(DoMark(s, now, ack))
  {
    var t := DoMark(s, now, ack);
    if !ack.Failed? {
      forall id | id in s.hist
        ensures EntryOk(t.hist[id]) && (id in t.db.runs ==> RowOk(t.db, id, t.db.runs[id], t.hist[id]))
        ensures forall q: Proc :: q.id == id && ProcOk(s, q) ==> ProcOk(t, q)
      {
        MarkKeepsRun(s, t, id, now);
      }
      ProofsFrame(s, t);
      CountersFrame(s, t);
    }
  }

  /** The steps of a run's level loop. */
  predicate LoopAction(a: Action) {
    a.ExecLevel? || a.EvidenceFails? || a.WriteStep? || a.Finish? || a.Panic?
  }

  lemma LoopActionKeeps(s: Sys, a: Action)
    requires Inv(s) && LoopAction(a) && Known(s, a.p)
    ensures Inv(Apply(s, a))
  {
    match a
    case ExecLevel(p, resp) => ExecKeeps(s, p, resp);
    case EvidenceFails(p) => EvidenceFailsKeeps(s, p);
    case WriteStep(p, ack) => WriteStepKeeps(s, p, ack);
    case Finish(p, end, ack) => FinishKeeps(s, p, end, ack);
    case Panic(p) => PanicKeeps(s, p);
  }

  /** The steps after the loop, and the crash. */
  predicate TailAction(a: Action) {
    a.Finalize? || a.Count? || a.Prove? || a.Retain? || a.Crash?
  }

  lemma TailActionKeeps(s: Sys, a: Action)
    requires Inv(s) && TailAction(a) && Known(s, a.p)
    ensures Inv(Apply(s, a))
  {
    match a
    case Finalize(p, end, ack) => FinalizeKeeps(s, p, end, ack);
    case Count(p, ack) => CountKeeps(s, p, ack);
    case Prove(p, ack) => ProveKeeps(s, p, ack);
    case Retain(p, ack) => RetainKeeps(s, p, ack);
    case Crash(p) => LeaveKeeps(s, p, Crashed);
  }

  lemma ApplyKeeps(s: Sys, a: Action)
    requires Inv(s)
    ensures Inv(Apply(s, a))
  {
    if LoopAction(a) {
      if Known(s, a.p) {
        LoopActionKeeps(s, a);
      }
    } else if TailAction(a) {
      if Known(s, a.p) {
        TailActionKeeps(s, a);
      }
    } else {
      match a
      case Begin(p, drill, only, start, gap, ack) => BeginKeeps(s, p, drill, only, start, gap, ack);
      case MarkAbandoned(now, ack) => MarkKeeps(s, now, ack);
      case PruneRuns(drill, maxAge, maxCount, now, ack) => PruneKeeps(s, drill, maxAge, maxCount, now, ack);
    }
  }

  lemma {:induction false} ReachInv(acts: seq<Action>)
    ensures Inv(Reach(acts))
    decreases |acts|
  {
    if acts == [] {
      assert Inv(INITIAL);
    } else {
      ReachInv(acts[..|acts| - 1]);
      ApplyKeeps(Reach(acts[..|acts| - 1]), acts[|acts| - 1]);
    }
  }
}
