/**
 `Run` as the program executes it: one process, its locals and the open database. Run without
 interference, it is a schedule of the run machine.
 */
module Orchestrator {
  import opened Common
  import opened Store
  import opened Levels
  import opened RunMachine
  import opened RunInvariant
  import opened RunSteps
  import Database
  import Retention

  /** How the store answers the writes of one run. */
  datatype Faults = Faults(
    create: Ack,
    evidence: Level -> bool,
    step: Level -> Ack,
    finish: Ack,
    finalize: Ack,
    count: Ack,
    proof: Level -> Ack,
    prune: Ack)

  /** What `Run` returns. `proven` is false when recording a proof failed. */
  datatype RunReturn =
    | UsageError
    | NotCreated
    | LevelFailed
    | FinishFailed
    | Finished(id: nat, status: Verdict, reached: Option<Level>, levels: seq<LevelOutcome>, proven: bool)

  lemma PlayStep(s: Sys, acts: seq<Action>, a: Action)
    ensures Play(s, acts + [a]) == Apply(Play(s, acts), a)
  {
    assert (acts + [a])[..|acts|] == acts;
  }

  /** The proof of a drill's level is at `at` or later. */
  predicate Advanced(proofs: map<(string, Level), Time>, drill: string, lv: Level, at: Time) {
    (drill, lv) in proofs && at <= proofs[(drill, lv)]
  }

  /** The action is a step of process p. */
  predicate Own(a: Action, p: nat) {
    !a.MarkAbandoned? && !a.PruneRuns? && a.p == p
  }

  predicate OwnActs(acts: seq<Action>, p: nat)
    decreases |acts|
  {
    acts == [] || (OwnActs(acts[..|acts| - 1], p) && Own(acts[|acts| - 1], p))
  }

  lemma OwnOne(a: Action, p: nat)
    requires Own(a, p)
    ensures OwnActs([a], p)
  {
    assert [a][..0] == [];
  }

  lemma {:induction false} OwnMore(acts: seq<Action>, more: seq<Action>, p: nat)
    requires OwnActs(acts, p) && OwnActs(more, p)
    ensures OwnActs(acts + more, p)
    decreases |more|
  {
    if more == [] {
      assert acts + more == acts;
    } else {
      var n := |more| - 1;
      OwnMore(acts, more[..n], p);
      assert (acts + more)[..|acts + more| - 1] == acts + more[..n];
    }
  }

  /** A stretch of a process's steps and the next one: played in a row, still its own. */
  lemma Join(s: Sys, acts: seq<Action>, more: seq<Action>, p: nat)
    requires OwnActs(acts, p) && OwnActs(more, p)
    ensures Play(s, acts + more) == Play(Play(s, acts), more) && OwnActs(acts + more, p)
  {
    PlayMore(s, acts, more);
    OwnMore(acts, more, p);
  }

  /** Every action of a process's stretch is its own. */
  lemma {:induction false} OwnEach(acts: seq<Action>, p: nat, i: nat)
    requires OwnActs(acts, p) && i < |acts|
    ensures Own(acts[i], p)
    decreases |acts|
  {
    if i < |acts| - 1 {
      OwnEach(acts[..|acts| - 1], p, i);
    }
  }

  /** One drill's counter has grown by n, if that is positive and the write took effect. */
  ghost predicate CounterGrew(before: Db, after: Db, drill: string, n: int, ack: Ack) {
    forall d :: Counter(after, d) == Counter(before, d) + if d == drill && n > 0 && !ack.Failed? then n else 0
  }

  /** What a run that gave up at level lv leaves in its row: an error with the totals of the levels
      before and the pin, which lv may have set, unless the finalizer's write had no effect. */
  predicate RowGaveUp(runs: map<nat, Row>, id: nat, q: Progress, lv: Level, ask: Executor, finalize: Ack) {
    && id in runs
    && (finalize.Failed? ==> runs[id].result.None?)
    && (!finalize.Failed? ==>
          var r := runs[id];
          var resp := ask(lv, q.st.pin, q.st.pinAt);
          && r.result == Some(Error) && r.levelReached == q.reached && r.bytes == q.st.bytes && r.files == q.st.files
          && (r.snapshot, r.snapshotTime) ==
               if q.st.pin == "" && !q.shortCircuit && resp.Answered? && resp.snapshot != "" then (resp.snapshot, resp.snapshotTime) else (q.st.pin, q.st.pinAt))
  }

  /** What a run leaves in its row that was told its verdict could not be written. */
  predicate RowUnfinished(runs: map<nat, Row>, id: nat, status: Verdict, finish: Ack, finalize: Ack) {
    && id in runs
    && runs[id].result == if finish.Lost? then Some(status) else if finalize.Failed? then None else Some(Error)
  }

  /** A level that could not be written adds nothing to the progress but perhaps the pin. */
  predicate GaveUpAt(p: Progress, q: Progress, lv: Level, ask: Executor) {
    p.reached == q.reached && p.st == Execute(q, lv, ask(lv, q.st.pin, q.st.pinAt)).st
  }

  /** What a run whose row exists leaves behind. It gave up in its loop behind level k, or could not
      write its verdict, or finished: then the row tells what it did, its bytes are counted unless
      that write failed, behind a pass every passing level's proof has advanced, and retention has
      deleted exactly what the drill's limits do not keep; but nothing, if a proof could not be
      recorded. Anything but a finished pass leaves the proofs, and anything but a finished run the
      counters and all other rows, as they were. */
  ghost predicate RunEnds(before: Db, after: Db, id: nat, drill: Drill, levels: seq<Level>, start: Time, end: Time, ask: Executor, faults: Faults, res: RunReturn, k: nat) {
    match res
    case LevelFailed =>
      && k < |levels| && RowGaveUp(after.runs, id, RunWith(START, levels[..k], ask), levels[k], ask, faults.finalize)
      && OthersSame(before.runs, after.runs, id)
      && after.counters == before.counters && after.proofs == before.proofs
    case FinishFailed =>
      && RowUnfinished(after.runs, id, RunVerdict(RunWith(START, levels, ask).done), faults.finish, faults.finalize)
      && OthersSame(before.runs, after.runs, id)
      && after.counters == before.counters && after.proofs == before.proofs
    case Finished(rid, status, reached, done, proven) =>
      var r := RunWith(START, levels, ask);
      && rid == id && done == r.done && status == RunVerdict(r.done) && reached == r.reached
      && RowTells(after.runs, id, r, status, end)
      && (var closed := before.runs[id := Closed(NewRow(drill.name, start), FinalOf(r, status, end))];
          if proven then RowsRetained(closed, after.runs, drill, end, faults.prune) else after.runs == closed)
      && CounterGrew(before, after, drill.name, r.st.bytes, faults.count)
      && (proven && status == Pass ==> forall lv :: PassedAt(done, lv) ==> Advanced(after.proofs, drill.name, lv, start))
      && (status != Pass ==> after.proofs == before.proofs)
    case _ => false
  }

  /** The same for any run: without a row it leaves proofs and counters as they were. */
  ghost predicate RunLeaves(before: Db, after: Db, id: nat, drill: Drill, only: Option<Level>, start: Time, end: Time, ask: Executor, faults: Faults, res: RunReturn, k: nat) {
    if res.UsageError? || res.NotCreated? then after.counters == before.counters && after.proofs == before.proofs
    else SelectLevels(drill, only).Some? && RunEnds(before, after, id, drill, SelectLevels(drill, only).value, start, end, ask, faults, res, k)
  }

  /** What the end of a run whose levels are done leaves behind. */
  ghost predicate Concludes(before: Db, after: Db, id: nat, drill: Drill, start: Time, end: Time, prog: Progress, faults: Faults, res: RunReturn) {
    match res
    case FinishFailed =>
      && RowUnfinished(after.runs, id, RunVerdict(prog.done), faults.finish, faults.finalize)
      && OthersSame(before.runs, after.runs, id)
      && after.counters == before.counters && after.proofs == before.proofs
    case Finished(rid, status, reached, done, proven) =>
      && rid == id && done == prog.done && status == RunVerdict(done) && reached == prog.reached
      && (var closed := before.runs[id := Closed(NewRow(drill.name, start), FinalOf(prog, status, end))];
          if proven then RowsRetained(closed, after.runs, drill, end, faults.prune) else after.runs == closed)
      && CounterGrew(before, after, drill.name, prog.st.bytes, faults.count)
      && (proven && status == Pass ==> AllAdvanced(after.proofs, drill.name, PassLevels(done), start))
      && (status != Pass ==> after.proofs == before.proofs)
    case _ => false
  }

  lemma ConcludedRunEnds(before: Db, after: Db, id: nat, drill: Drill, levels: seq<Level>, start: Time, end: Time, ask: Executor, faults: Faults, res: RunReturn, k: nat)
    requires Concludes(before, after, id, drill, start, end, RunWith(START, levels, ask), faults, res)
    ensures RunEnds(before, after, id, drill, levels, start, end, ask, faults, res, k)
  {
    var prog := RunWith(START, levels, ask);
    forall lv ensures lv in PassLevels(prog.done) <==> PassedAt(prog.done, lv) {
      PassLevelsPassed(prog.done, lv);
    }
  }

  /** Step rows are nothing to it either. */
  lemma SameStart(began: Db, before: Db, after: Db, id: nat, drill: Drill, levels: seq<Level>, start: Time, end: Time, ask: Executor, faults: Faults, res: RunReturn, k: nat)
    requires began.counters == before.counters && began.proofs == before.proofs && began.runs == before.runs
    requires RunEnds(before, after, id, drill, levels, start, end, ask, faults, res, k)
    ensures RunEnds(began, after, id, drill, levels, start, end, ask, faults, res, k)
  {
    assert forall d :: Counter(began, d) == Counter(before, d);
  }

  /** The insert of the row is nothing to what the run leaves behind. */
  lemma RunEndsSince(before: Db, created: Db, after: Db, id: nat, drill: Drill, levels: seq<Level>, start: Time, end: Time, ask: Executor, faults: Faults, res: RunReturn, k: nat)
    requires created.counters == before.counters && created.proofs == before.proofs
    requires created.runs == before.runs[id := NewRow(drill.name, start)]
    requires RunEnds(created, after, id, drill, levels, start, end, ask, faults, res, k)
    ensures RunEnds(before, after, id, drill, levels, start, end, ask, faults, res, k)
  {
    assert forall d :: Counter(created, d) == Counter(before, d);
    if res.Finished? {
      var row := Closed(NewRow(drill.name, start), FinalOf(RunWith(START, levels, ask), res.status, end));
      assert created.runs[id := row] == before.runs[id := row];
    }
  }

  lemma {:induction false} RunWithNext(p: Progress, levels: seq<Level>, lv: Level, ask: Executor)
    ensures var q := RunWith(p, levels, ask);
            RunWith(p, levels + [lv], ask) == Commit(q, Execute(q, lv, ask(lv, q.st.pin, q.st.pinAt)))
    decreases |levels|
  {
    if levels == [] {
      assert [] + [lv] == [lv] && [lv][1..] == [];
    } else {
      assert (levels + [lv])[1..] == levels[1..] + [lv];
      RunWithNext(Commit(p, Execute(p, levels[0], ask(levels[0], p.st.pin, p.st.pinAt))), levels[1..], lv, ask);
    }
  }

  /** The proofs still to record behind the first i outcomes. */
  predicate ToRecord(done: seq<LevelOutcome>, i: nat, todo: seq<Level>) {
    i <= |done| && PassLevels(done) == PassLevels(done[..i]) + todo
  }

  predicate AllAdvanced(proofs: map<(string, Level), Time>, drill: string, levels: seq<Level>, at: Time) {
    forall lv :: lv in levels ==> Advanced(proofs, drill, lv, at)
  }

  /** No row but that of run id is touched. */
  ghost predicate OthersSame(before: map<nat, Row>, after: map<nat, Row>, id: nat) {
    forall j :: j != id ==> (j in after <==> j in before) && (j in after ==> after[j] == before[j])
  }

  /** Retention: rows stay as they are, and exactly those that the drill's age and count limits keep at
      time `end`; all of them, when the prune has no effect or lacks a clock for the age. */
  ghost predicate RowsRetained(closed: map<nat, Row>, after: map<nat, Row>, drill: Drill, end: Time, prune: Ack) {
    forall j ::
      && (j in after ==> j in closed && after[j] == closed[j])
      && (j in after <==>
            if prune.Failed? || (drill.maxAge > 0 && end == ZERO_TIME) then j in closed
            else Retention.Keeps(closed, drill.name, drill.maxAge, drill.maxCount, end, j))
  }

  lemma PruneRetains(db: Db, drill: Drill, end: Time, ack: Ack)
    ensures RowsRetained(db.runs, Store.Prune(db, drill.name, drill.maxAge, drill.maxCount, end, ack).0.runs, drill, end, ack)
  {
    var after := Store.Prune(db, drill.name, drill.maxAge, drill.maxCount, end, ack).0.runs;
    forall j
      ensures j in after ==> j in db.runs && after[j] == db.runs[j]
      ensures j in after <==>
                if ack.Failed? || (drill.maxAge > 0 && end == ZERO_TIME) then j in db.runs
                else Retention.Keeps(db.runs, drill.name, drill.maxAge, drill.maxCount, end, j)
    {
      Retention.PruneKeepsExactly(db, drill.name, drill.maxAge, drill.maxCount, end, ack, j);
    }
  }

  /** Every write of the run takes effect and is acknowledged, so far as the run depends on it. */
  ghost predicate Clean(f: Faults) {
    f.create.Acked? && f.finish.Acked? && forall lv :: !f.evidence(lv) && f.step(lv).Acked? && f.proof(lv).Acked?
  }

  /** The row, if retention left it, tells the verdict, the level, the totals and the pin. */
  predicate RowTells(runs: map<nat, Row>, id: nat, prog: Progress, status: Verdict, end: Time) {
    id in runs ==>
      var r := runs[id];
      && r.result == Some(status) && r.finishedAt == end && r.levelReached == prog.reached
      && r.bytes == prog.st.bytes && r.files == prog.st.files
      && r.snapshot == prog.st.pin && r.snapshotTime == prog.st.pinAt
  }

  /** The machine state s matches the database and process p is where the locals say. */
  ghost predicate At(s: Sys, db: Db, p: nat, q: Proc) {
    s.db == db && p in s.procs && s.procs[p] == q && q.id in s.hist
  }

  lemma PlayOne(s: Sys, a: Action)
    ensures Play(s, [a]) == Apply(s, a)
  {
    PlayStep(s, [], a);
    assert [] + [a] == [a];
  }

  lemma BeginPlays(s: Sys, p: nat, drill: Drill, only: Option<Level>, start: Time, gap: nat, ack: Ack)
    requires p !in s.procs && SelectLevels(drill, only).Some?
    ensures var (after, reply) := Store.CreateRun(s.db, drill.name, start, gap, ack);
            var t := Play(s, [Begin(p, drill, only, start, gap, ack)]);
            && t.db == after
            && (reply.Done? ==> At(t, after, p, Proc(s.db.nextId + gap, drill, start, ZERO_TIME, SelectLevels(drill, only).value, START, Looping)))
            && (!reply.Done? ==> p !in t.procs)
  {
    PlayOne(s, Begin(p, drill, only, start, gap, ack));
  }

  lemma ExecPlays(s: Sys, db: Db, p: nat, q: Proc, resp: Response)
    requires At(s, db, p, q) && q.phase.Looping? && q.todo != []
    ensures At(Play(s, [ExecLevel(p, resp)]), db, p, q.(phase := Writing(Execute(q.prog, q.todo[0], resp))))
  {
    PlayOne(s, ExecLevel(p, resp));
  }

  lemma EvidenceFailsPlays(s: Sys, db: Db, p: nat, q: Proc)
    requires At(s, db, p, q) && q.phase.Writing?
    ensures At(Play(s, [EvidenceFails(p)]), db, p, Unwind(q))
  {
    PlayOne(s, EvidenceFails(p));
  }

  lemma WriteStepPlays(s: Sys, db: Db, p: nat, q: Proc, ack: Ack)
    requires At(s, db, p, q) && q.phase.Writing? && q.todo != []
    ensures var (after, reply) := Store.AddStep(db, q.id, StepRowOf(q.phase.pending.result), ack);
            At(Play(s, [WriteStep(p, ack)]), after, p,
               if reply.Done? then q.(todo := q.todo[1..], prog := Commit(q.prog, q.phase.pending), phase := Looping) else Unwind(q))
  {
    PlayOne(s, WriteStep(p, ack));
  }

  lemma ProvePlays(s: Sys, db: Db, p: nat, q: Proc, ack: Ack)
    requires At(s, db, p, q) && q.phase.Proving? && q.phase.todo != []
    ensures var (after, reply) := Store.RecordProof(db, q.drill.name, q.phase.todo[0], q.start, ack);
            var t := Play(s, [Prove(p, ack)]);
            && t.db == after
            && (reply.Done? ==> At(t, after, p, q.(phase := Proving(q.phase.todo[1..]))))
            && (!reply.Done? ==> p !in t.procs)
  {
    PlayOne(s, Prove(p, ack));
  }

  lemma RecordedIsAdvanced(db: Db, drill: string, lv: Level, at: Time, ack: Ack)
    ensures var (after, reply) := Store.RecordProof(db, drill, lv, at, ack);
            && (reply.Done? ==> Advanced(after.proofs, drill, lv, at))
            && (forall l :: Advanced(db.proofs, drill, l, at) ==> Advanced(after.proofs, drill, l, at))
  {
  }

  class Orchestrator {
    const store: Database.Connection

    constructor (store: Database.Connection)
      ensures this.store == store
    {
      this.store := store;
    }

    /** With no other process about, `Run` is a stretch of its own steps in the run machine. */
    method Run(drill: Drill, only: Option<Level>, start: Time, end: Time, gap: nat, ask: Executor, faults: Faults, ghost s0: Sys, ghost p: nat)
      returns (res: RunReturn, ghost acts: seq<Action>, ghost k: nat)
      requires s0.db == store.View() && p !in s0.procs && 1 <= store.nextId
      modifies store
      ensures Play(s0, acts).db == store.View() && p !in Play(s0, acts).procs && OwnActs(acts, p)
      ensures res.UsageError? <==> SelectLevels(drill, only).None?
      ensures res.UsageError? ==> store.View() == old(store.View())
      ensures SelectLevels(drill, only).Some? ==> (res.NotCreated? <==> drill.name == "" || start == ZERO_TIME || !faults.create.Acked?)
      ensures SelectLevels(drill, only).Some? && drill.name != "" && start != ZERO_TIME && Clean(faults) ==> res.Finished? && res.proven
      ensures res.NotCreated? ==> store.View() == Store.CreateRun(old(store.View()), drill.name, start, gap, faults.create).0
      ensures RunLeaves(old(store.View()), store.View(), old(store.nextId) + gap, drill, only, start, end, ask, faults, res, k)
    {
      acts, k := [], 0;
      var sel := SelectLevelsLoop(drill, only);
      if sel.None? {
        return UsageError, [], 0;
      }
      res, acts, k := RunSelected(drill, only, sel.value, start, end, gap, ask, faults, s0, p);
    }

    /** The run of the levels that were selected. */
    method RunSelected(drill: Drill, only: Option<Level>, levels: seq<Level>, start: Time, end: Time, gap: nat, ask: Executor, faults: Faults, ghost s0: Sys, ghost p: nat)
      returns (res: RunReturn, ghost acts: seq<Action>, ghost k: nat)
      requires s0.db == store.View() && p !in s0.procs && 1 <= store.nextId && SelectLevels(drill, only) == Some(levels)
      modifies store
      ensures Play(s0, acts).db == store.View() && p !in Play(s0, acts).procs && OwnActs(acts, p)
      ensures !res.UsageError? && (res.NotCreated? <==> drill.name == "" || start == ZERO_TIME || !faults.create.Acked?)
      ensures drill.name != "" && start != ZERO_TIME && Clean(faults) ==> res.Finished? && res.proven
      ensures res.NotCreated? ==> store.View() == Store.CreateRun(old(store.View()), drill.name, start, gap, faults.create).0
      ensures RunLeaves(old(store.View()), store.View(), old(store.nextId) + gap, drill, only, start, end, ask, faults, res, k)
    {
      k := 0;
      ghost var before := store.View();
      var id, created;
      id, created, acts := CreateRow(drill, only, levels, start, gap, faults, s0, p);
      if !created {
        return NotCreated, acts, 0;
      }
      ghost var more, begun := [], store.View();
      res, more, k := RunCreated(id, drill, levels, start, end, ask, faults, Play(s0, acts), p);
      RunEndsSince(before, begun, store.View(), id, drill, levels, start, end, ask, faults, res, k);
      Join(s0, acts, more, p);
      acts := acts + more;
    }

    method CreateRow(drill: Drill, only: Option<Level>, levels: seq<Level>, start: Time, gap: nat, faults: Faults, ghost s0: Sys, ghost p: nat)
      returns (id: nat, created: bool, ghost acts: seq<Action>)
      requires s0.db == store.View() && p !in s0.procs && 1 <= store.nextId && SelectLevels(drill, only) == Some(levels)
      modifies store
      ensures OwnActs(acts, p) && store.counters == old(store.counters) && store.proofs == old(store.proofs)
      ensures created <==> drill.name != "" && start != ZERO_TIME && faults.create.Acked?
      ensures created ==> id == old(store.nextId) + gap && store.runs == old(store.runs)[id := NewRow(drill.name, start)]
      ensures created ==> At(Play(s0, acts), store.View(), p, Proc(id, drill, start, ZERO_TIME, levels, START, Looping))
      ensures !created ==> Play(s0, acts).db == store.View() && p !in Play(s0, acts).procs
      ensures !created ==> store.View() == Store.CreateRun(old(store.View()), drill.name, start, gap, faults.create).0
    {
      acts := [Begin(p, drill, only, start, gap, faults.create)];
      OwnOne(acts[0], p);
      BeginPlays(s0, p, drill, only, start, gap, faults.create);
      var reply;
      id, reply := store.CreateRun(drill.name, start, gap, faults.create);
      created := reply == Done;
    }

    /** The rest of the run, once its row is there. */
    method RunCreated(id: nat, drill: Drill, levels: seq<Level>, start: Time, end: Time, ask: Executor, faults: Faults, ghost s0: Sys, ghost p: nat)
      returns (res: RunReturn, ghost acts: seq<Action>, ghost k: nat)
      requires id != 0 && id in store.runs && store.runs[id] == NewRow(drill.name, start) && drill.name != "" && start != ZERO_TIME
      requires At(s0, store.View(), p, Proc(id, drill, start, ZERO_TIME, levels, START, Looping))
      modifies store
      ensures Clean(faults) ==> res.Finished? && res.proven
      ensures Play(s0, acts).db == store.View() && p !in Play(s0, acts).procs && OwnActs(acts, p)
      ensures RunEnds(old(store.View()), store.View(), id, drill, levels, start, end, ask, faults, res, k)
    {
      var prog, failed; ghost var todo, more, began := [], [], store.View();
      prog, failed, todo, acts, k := RunLevels(id, drill, start, levels, ask, faults, s0, p);
      if failed {
        more := DeferredFinalizer(id, drill, start, end, ZERO_TIME, prog, faults, Play(s0, acts), p, todo);
        Join(s0, acts, more, p);
        return LevelFailed, acts + more, k;
      }
      ghost var before := store.View();
      res, more := Conclude(id, drill, start, end, prog, faults, Play(s0, acts), p);
      ConcludedRunEnds(before, store.View(), id, drill, levels, start, end, ask, faults, res, k);
      SameStart(began, before, store.View(), id, drill, levels, start, end, ask, faults, res, k);
      Join(s0, acts, more, p);
      acts := acts + more;
    }

    /** The level loop: up to the end, or to the level whose rows could not be written. */
    method RunLevels(id: nat, drill: Drill, start: Time, levels: seq<Level>, ask: Executor, faults: Faults, ghost s0: Sys, ghost p: nat)
      returns (prog: Progress, failed: bool, ghost todo: seq<Level>, ghost acts: seq<Action>, ghost n: nat)
      requires id in store.runs
      requires At(s0, store.View(), p, Proc(id, drill, start, ZERO_TIME, levels, START, Looping))
      modifies store`steps
      ensures OwnActs(acts, p) && (Clean(faults) ==> !failed)
      ensures At(Play(s0, acts), store.View(), p, Proc(id, drill, start, ZERO_TIME, todo, prog, if failed then Aborting else Looping))
      ensures !failed ==> todo == [] && prog == RunWith(START, levels, ask)
      ensures failed ==> n < |levels| && GaveUpAt(prog, RunWith(START, levels[..n], ask), levels[n], ask)
    {
      // the loop's locals: outcomes, shortCircuit, reached, st
      prog, failed := START, false;
      todo, acts := levels, [];
      ghost var s := s0;
      var k := 0;
      while k < |levels| && !failed
        invariant 0 <= k <= |levels| && OwnActs(acts, p) && Play(s0, acts) == s
        invariant At(s, store.View(), p, Proc(id, drill, start, ZERO_TIME, todo, prog, if failed then Aborting else Looping))
        invariant !failed ==> todo == levels[k..] && prog == RunWith(START, levels[..k], ask)
        invariant failed ==> k > 0 && !Clean(faults) && GaveUpAt(prog, RunWith(START, levels[..k - 1], ask), levels[k - 1], ask)
      {
        ghost var more;
        RunWithNext(START, levels[..k], levels[k], ask);
        assert levels[..k] + [levels[k]] == levels[..k + 1];
        prog, failed, more := RunLevel(id, drill, start, levels[k], prog, ask, faults, s, p, todo);
        Join(s0, acts, more, p);
        acts := acts + more;
        s := Play(s, more);
        todo := if failed then todo else todo[1..];
        k := k + 1;
      }
      n := if failed then k - 1 else k;
      assert levels[..|levels|] == levels;
    }

    /** One level: execute it, write its evidence and step, fold it into the run's progress. */
    method RunLevel(id: nat, drill: Drill, start: Time, lv: Level, prog: Progress, ask: Executor, faults: Faults,
                    ghost s: Sys, ghost p: nat, ghost todo: seq<Level>)
      returns (next: Progress, failed: bool, ghost acts: seq<Action>)
      requires todo != [] && todo[0] == lv && id in store.runs
      requires At(s, store.View(), p, Proc(id, drill, start, ZERO_TIME, todo, prog, Looping))
      modifies store`steps
      ensures OwnActs(acts, p) && (failed ==> GaveUpAt(next, prog, lv, ask))
      ensures failed ==> faults.evidence(lv) || !faults.step(lv).Acked?
      ensures !failed ==> next == Commit(prog, Execute(prog, lv, ask(lv, prog.st.pin, prog.st.pinAt)))
      ensures !failed ==> At(Play(s, acts), store.View(), p, Proc(id, drill, start, ZERO_TIME, todo[1..], next, Looping))
      ensures failed ==> At(Play(s, acts), store.View(), p, Proc(id, drill, start, ZERO_TIME, todo, next, Aborting))
    {
      var resp := Broke;
      var outcome, ran, st, bytes, files := Skipped, false, prog.st, 0, 0;
      if !prog.shortCircuit {
        resp := ask(lv, st.pin, st.pinAt);
        match resp
        case Unsupported =>
        case NoSandbox =>
        case Broke => outcome, ran := Ran(Error), true;
        case Answered(status, snapshot, at, b, f) =>
          if st.pin == "" && snapshot != "" {
            st := st.(pin := snapshot, pinAt := at);
          }
          outcome, ran, bytes, files := Ran(status), true, b, f;
      }
      var out := LevelOutcome(lv, outcome, bytes);
      assert Execute(prog, lv, resp) == Pending(out, ran, st, files);
      acts := [ExecLevel(p, resp)];
      OwnOne(acts[0], p);
      ExecPlays(s, store.View(), p, Proc(id, drill, start, ZERO_TIME, todo, prog, Looping), resp);
      ghost var s1 := Play(s, acts);
      ghost var q1 := Proc(id, drill, start, ZERO_TIME, todo, prog, Writing(Pending(out, ran, st, files)));
      assert At(s1, store.View(), p, q1);
      if resp.Answered? && !prog.shortCircuit && faults.evidence(lv) {
        EvidenceFailsPlays(s1, store.View(), p, q1);
        OwnOne(EvidenceFails(p), p);
        Join(s, acts, [EvidenceFails(p)], p);
        acts := acts + [EvidenceFails(p)];
        return prog.(st := st), true, acts;
      }
      WriteStepPlays(s1, store.View(), p, q1, faults.step(lv));
      var reply := store.AddStep(id, StepRow(lv, outcome), faults.step(lv));
      OwnOne(WriteStep(p, faults.step(lv)), p);
      Join(s, acts, [WriteStep(p, faults.step(lv))], p);
      acts := acts + [WriteStep(p, faults.step(lv))];
      if reply != Done {
        return prog.(st := st), true, acts;
      }
      st := st.(bytes := st.bytes + bytes, files := st.files + files);
      var shortCircuit, reached := prog.shortCircuit, prog.reached;
      if ran {
        reached := Some(lv);
        if outcome == Ran(Fail) || outcome == Ran(Error) {
          shortCircuit := true;
        }
      }
      next, failed := Progress(prog.done + [out], shortCircuit, reached, st), false;
    }

    /** The deferred finalizer of a run that did not finish. */
    method DeferredFinalizer(id: nat, drill: Drill, start: Time, end: Time, ghost ended: Time, prog: Progress, faults: Faults,
                             ghost s: Sys, ghost p: nat, ghost todo: seq<Level>)
      returns (ghost acts: seq<Action>)
      requires At(s, store.View(), p, Proc(id, drill, start, ended, todo, prog, Aborting))
      modifies store`runs
      ensures Play(s, acts).db == store.View() && p !in Play(s, acts).procs && OwnActs(acts, p)
      ensures store.View() == Store.FinishRun(old(store.View()), id, FinalOf(prog, Error, end), faults.finalize).0
    {
      var reply := store.FinishRun(id, FinalOf(prog, Error, end), faults.finalize);
      acts := [Finalize(p, end, faults.finalize)];
      PlayOne(s, acts[0]);
      OwnOne(acts[0], p);
    }

    /** After the loop: verdict, counter, proofs, retention. */
    method Conclude(id: nat, drill: Drill, start: Time, end: Time, prog: Progress, faults: Faults, ghost s: Sys, ghost p: nat)
      returns (res: RunReturn, ghost acts: seq<Action>)
      requires At(s, store.View(), p, Proc(id, drill, start, ZERO_TIME, [], prog, Looping))
      requires id != 0 && id in store.runs && store.runs[id] == NewRow(drill.name, start) && drill.name != "" && start != ZERO_TIME
      modifies store
      ensures Clean(faults) ==> res.Finished? && res.proven
      ensures Play(s, acts).db == store.View() && p !in Play(s, acts).procs && OwnActs(acts, p)
      ensures Concludes(old(store.View()), store.View(), id, drill, start, end, prog, faults, res)
    {
      var status := AggregateRun(prog.done);
      var done; ghost var more;
      done, acts := FinishRow(id, drill, start, end, prog, status, faults, s, p);
      if !done {
        return FinishFailed, acts;
      }
      var proven;
      proven, more := Reward(id, drill, start, end, prog, status, faults, Play(s, acts), p);
      Join(s, acts, more, p);
      res, acts := Finished(id, status, prog.reached, prog.done, proven), acts + more;
    }

    /** The verdict's write; if it is not acknowledged, the finalizer's. */
    method FinishRow(id: nat, drill: Drill, start: Time, end: Time, prog: Progress, status: Verdict, faults: Faults, ghost s: Sys, ghost p: nat)
      returns (done: bool, ghost acts: seq<Action>)
      requires status == RunVerdict(prog.done)
      requires At(s, store.View(), p, Proc(id, drill, start, ZERO_TIME, [], prog, Looping))
      requires id != 0 && id in store.runs && store.runs[id] == NewRow(drill.name, start)
      modifies store`runs
      ensures OwnActs(acts, p) && (done <==> faults.finish.Acked?)
      ensures done ==> At(Play(s, acts), store.View(), p, Proc(id, drill, start, end, [], prog, Counting))
      ensures done ==> store.runs == old(store.runs)[id := Closed(NewRow(drill.name, start), FinalOf(prog, status, end))]
      ensures !done ==> Play(s, acts).db == store.View() && p !in Play(s, acts).procs
      ensures !done ==> RowUnfinished(store.runs, id, status, faults.finish, faults.finalize) && OthersSame(old(store.runs), store.runs, id)
    {
      var reply := store.FinishRun(id, FinalOf(prog, status, end), faults.finish);
      acts := [Finish(p, end, faults.finish)];
      PlayOne(s, acts[0]);
      OwnOne(acts[0], p);
      done := reply == Done;
      if !done {
        ghost var more := DeferredFinalizer(id, drill, start, end, end, prog, faults, Play(s, acts), p, []);
        Join(s, acts, more, p);
        acts := acts + more;
      }
    }

    /** Behind a committed verdict: the byte counter, the proofs, and retention if those were recorded. */
    method Reward(id: nat, drill: Drill, start: Time, end: Time, prog: Progress, status: Verdict, faults: Faults, ghost s: Sys, ghost p: nat)
      returns (proven: bool, ghost acts: seq<Action>)
      requires status == RunVerdict(prog.done)
      requires At(s, store.View(), p, Proc(id, drill, start, end, [], prog, Counting))
      requires drill.name != "" && start != ZERO_TIME
      modifies store
      ensures Clean(faults) ==> proven
      ensures if proven then RowsRetained(old(store.runs), store.runs, drill, end, faults.prune) else store.runs == old(store.runs)
      ensures Play(s, acts).db == store.View() && p !in Play(s, acts).procs && OwnActs(acts, p)
      ensures CounterGrew(old(store.View()), store.View(), drill.name, prog.st.bytes, faults.count)
      ensures proven && status == Pass ==> AllAdvanced(store.proofs, drill.name, PassLevels(prog.done), start)
      ensures status != Pass ==> store.proofs == old(store.proofs)
    {
      acts := CountBytes(id, drill, start, end, prog, status, faults, s, p);
      ghost var more;
      proven, more := RecordProofs(id, drill, start, end, prog, status, faults, Play(s, acts), p);
      Join(s, acts, more, p);
      acts := acts + more;
      if proven {
        more := Retire(id, drill, start, end, prog, faults, Play(s, acts), p);
        Join(s, acts, more, p);
        acts := acts + more;
      }
    }

    method CountBytes(id: nat, drill: Drill, start: Time, end: Time, prog: Progress, status: Verdict, faults: Faults, ghost s: Sys, ghost p: nat)
      returns (ghost acts: seq<Action>)
      requires status == RunVerdict(prog.done)
      requires At(s, store.View(), p, Proc(id, drill, start, end, [], prog, Counting))
      modifies store`counters
      ensures OwnActs(acts, p) && CounterGrew(old(store.View()), store.View(), drill.name, prog.st.bytes, faults.count)
      ensures At(Play(s, acts), store.View(), p, Proc(id, drill, start, end, [], prog, Proving(if status.Pass? then PassLevels(prog.done) else [])))
    {
      var reply := store.AddBytesRestored(drill.name, prog.st.bytes, faults.count);
      acts := [Count(p, faults.count)];
      PlayOne(s, acts[0]);
      OwnOne(acts[0], p);
    }

    method Retire(id: nat, drill: Drill, start: Time, end: Time, prog: Progress, faults: Faults, ghost s: Sys, ghost p: nat)
      returns (ghost acts: seq<Action>)
      requires At(s, store.View(), p, Proc(id, drill, start, end, [], prog, Proving([])))
      modifies store`runs, store`steps
      ensures Play(s, acts).db == store.View() && p !in Play(s, acts).procs && OwnActs(acts, p)
      ensures RowsRetained(old(store.runs), store.runs, drill, end, faults.prune)
    {
      PruneRetains(store.View(), drill, end, faults.prune);
      var deleted, reply := store.Prune(drill.name, drill.maxAge, drill.maxCount, end, faults.prune);
      acts := [Retain(p, faults.prune)];
      PlayOne(s, acts[0]);
      OwnOne(acts[0], p);
    }

    /** Behind any other verdict than pass nothing is recorded; behind a pass, one proof per passing level. */
    method RecordProofs(id: nat, drill: Drill, start: Time, end: Time, prog: Progress, status: Verdict, faults: Faults, ghost s: Sys, ghost p: nat)
      returns (ok: bool, ghost acts: seq<Action>)
      requires status == RunVerdict(prog.done)
      requires At(s, store.View(), p, Proc(id, drill, start, end, [], prog, Proving(if status.Pass? then PassLevels(prog.done) else [])))
      requires drill.name != "" && start != ZERO_TIME
      modifies store`proofs
      ensures Clean(faults) ==> ok
      ensures Play(s, acts).db == store.View() && OwnActs(acts, p)
      ensures ok ==> At(Play(s, acts), store.View(), p, Proc(id, drill, start, end, [], prog, Proving([])))
      ensures !ok ==> p !in Play(s, acts).procs
      ensures ok && status == Pass ==> AllAdvanced(store.proofs, drill.name, PassLevels(prog.done), start)
      ensures status != Pass ==> store.proofs == old(store.proofs)
    {
      acts, ok := [], true;
      if status != Pass {
        return;
      }
      ghost var todo := PassLevels(prog.done);
      var i := 0;
      while i < |prog.done|
        invariant 0 <= i <= |prog.done| && ok && OwnActs(acts, p)
        invariant ToRecord(prog.done, i, todo) && AllAdvanced(store.proofs, drill.name, PassLevels(prog.done[..i]), start)
        invariant At(Play(s, acts), store.View(), p, Proc(id, drill, start, end, [], prog, Proving(todo)))
      {
        ghost var more;
        ok, todo, more := RecordAt(id, drill, start, end, prog, i, faults, Play(s, acts), p, todo);
        Join(s, acts, more, p);
        acts := acts + more;
        if !ok {
          return;
        }
        i := i + 1;
      }
      assert prog.done[..i] == prog.done;
    }

    /** The i-th outcome: a proof if it passed. */
    method RecordAt(id: nat, drill: Drill, start: Time, end: Time, prog: Progress, i: nat, faults: Faults, ghost s: Sys, ghost p: nat, ghost todo: seq<Level>)
      returns (ok: bool, ghost rest: seq<Level>, ghost acts: seq<Action>)
      requires i < |prog.done| && ToRecord(prog.done, i, todo)
      requires AllAdvanced(store.proofs, drill.name, PassLevels(prog.done[..i]), start)
      requires At(s, store.View(), p, Proc(id, drill, start, end, [], prog, Proving(todo)))
      requires drill.name != "" && start != ZERO_TIME
      modifies store`proofs
      ensures !ok ==> !faults.proof(prog.done[i].level).Acked?
      ensures Play(s, acts).db == store.View() && OwnActs(acts, p)
      ensures !ok ==> p !in Play(s, acts).procs
      ensures ok ==> ToRecord(prog.done, i + 1, rest) && AllAdvanced(store.proofs, drill.name, PassLevels(prog.done[..i + 1]), start)
      ensures ok ==> At(Play(s, acts), store.View(), p, Proc(id, drill, start, end, [], prog, Proving(rest)))
    {
      PassLevelsSplit(prog.done, i, todo);
      ok, rest, acts := true, todo, [];
      if prog.done[i].outcome == Ran(Pass) {
        ok, acts := RecordOne(id, drill, start, end, prog, prog.done[i].level, faults, s, p, todo, PassLevels(prog.done[..i]));
        rest := todo[1..];
      }
    }

    method RecordOne(id: nat, drill: Drill, start: Time, end: Time, prog: Progress, lv: Level, faults: Faults,
                     ghost s: Sys, ghost p: nat, ghost todo: seq<Level>, ghost recorded: seq<Level>)
      returns (ok: bool, ghost acts: seq<Action>)
      requires todo != [] && todo[0] == lv
      requires At(s, store.View(), p, Proc(id, drill, start, end, [], prog, Proving(todo)))
      requires AllAdvanced(store.proofs, drill.name, recorded, start) && drill.name != "" && start != ZERO_TIME
      modifies store`proofs
      ensures ok <==> faults.proof(lv).Acked?
      ensures Play(s, acts).db == store.View() && OwnActs(acts, p)
      ensures ok ==> At(Play(s, acts), store.View(), p, Proc(id, drill, start, end, [], prog, Proving(todo[1..])))
      ensures !ok ==> p !in Play(s, acts).procs
      ensures ok ==> AllAdvanced(store.proofs, drill.name, recorded + [lv], start)
    {
      acts := [Prove(p, faults.proof(lv))];
      OwnOne(acts[0], p);
      ProvePlays(s, store.View(), p, Proc(id, drill, start, end, [], prog, Proving(todo)), faults.proof(lv));
      RecordedIsAdvanced(store.View(), drill.name, lv, start, faults.proof(lv));
      var reply := store.RecordProof(drill.name, lv, start, faults.proof(lv));
      ok := reply == Done;
    }
  }

  lemma {:induction false} PlayMore(s: Sys, acts: seq<Action>, more: seq<Action>)
    ensures Play(s, acts + more) == Play(Play(s, acts), more)
    decreases |more|
  {
    if more == [] {
      assert acts + more == acts;
    } else {
      var n := |more| - 1;
      PlayMore(s, acts, more[..n]);
      assert (acts + more)[..|acts + more| - 1] == acts + more[..n];
    }
  }

  lemma PassLevelsNext(done: seq<LevelOutcome>, i: nat)
    requires i < |done|
    ensures PassLevels(done[..i + 1]) == PassLevels(done[..i]) + if done[i].outcome == Ran(Pass) then [done[i].level] else []
  {
    assert done[..i + 1][..i] == done[..i];
  }

  lemma {:induction false} PassLevelsPrefix(done: seq<LevelOutcome>, i: nat)
    requires i <= |done|
    ensures PassLevels(done[..i]) <= PassLevels(done)
    decreases |done| - i
  {
    if i < |done| {
      PassLevelsPrefix(done, i + 1);
      assert done[..i + 1][..i] == done[..i];
    } else {
      assert done[..i] == done;
    }
  }

  lemma HeadOfRest(full: seq<Level>, a: seq<Level>, rest: seq<Level>, lv: Level)
    requires full == a + rest && a + [lv] <= full
    ensures rest != [] && rest[0] == lv && full == (a + [lv]) + rest[1..]
  {
    assert |a| < |full|;
    assert full[|a|] == (a + [lv])[|a|] == lv;
    assert rest == full[|a|..];
  }

  /** The next passing outcome of the loop is the head of what is left to prove. */
  lemma PassLevelsSplit(done: seq<LevelOutcome>, i: nat, todo: seq<Level>)
    requires i < |done| && PassLevels(done) == PassLevels(done[..i]) + todo
    ensures PassLevels(done[..i + 1]) == PassLevels(done[..i]) + if done[i].outcome == Ran(Pass) then [done[i].level] else []
    ensures done[i].outcome == Ran(Pass) ==>
              todo != [] && todo[0] == done[i].level && PassLevels(done) == PassLevels(done[..i + 1]) + todo[1..]
  {
    PassLevelsNext(done, i);
    if done[i].outcome == Ran(Pass) {
      PassLevelsPrefix(done, i + 1);
      HeadOfRest(PassLevels(done), PassLevels(done[..i]), todo, done[i].level);
    }
  }
}
