/**
 Any number of runs against one store. Each store statement, each executor answer and each crash is
 one atomic action; a trace is any sequence of actions, so schedulers, API triggers and separate CLI
 processes interleave freely with retention and with the startup marking of abandoned runs.
 */
module RunMachine {
  import opened Common
  import opened Store
  import opened Levels

  /** Where one `Run` call stands. */
  datatype Phase =
    | Looping                    // at the head of the level loop
    | Writing(pending: Pending)  // a level executed; its evidence and step row are being written
    | Aborting                   // an error is being returned; only the deferred finalizer is left
    | Counting                   // the verdict is committed; the byte counter comes next
    | Proving(todo: seq<Level>)  // proofs still to record, then retention

  datatype Proc = Proc(id: nat, drill: Drill, start: Time, end: Time, todo: seq<Level>, prog: Progress, phase: Phase)

  /** How a run's `Run` call stands. CreateUnheard: it returned because the insert of its row was
      reported as failed, although it took effect. FinalizeFailed: it returned an error, and the
      finalizer's write had no effect. Returned: it came back any other way. */
  datatype Fate = Running | Crashed | CreateUnheard | FinalizeFailed | Returned

  /** The history of a run, kept after retention deletes its row. `normal` says that the verdict was
      committed by the run itself at the end of its loop, from the outcomes in `done`. */
  datatype Entry = Entry(
    drill: string,
    start: Time,
    verdict: Option<Verdict>,
    normal: bool,
    done: seq<LevelOutcome>,
    st: LevelState,
    counted: bool,
    proved: set<Level>,
    fate: Fate)

  datatype Sys = Sys(db: Db, procs: map<nat, Proc>, hist: map<nat, Entry>)

  datatype Action =
    | Begin(p: nat, drill: Drill, only: Option<Level>, start: Time, gap: nat, ack: Ack)
    | ExecLevel(p: nat, resp: Response)
    | EvidenceFails(p: nat)
    | WriteStep(p: nat, ack: Ack)
    | Finish(p: nat, end: Time, ack: Ack)
    | Finalize(p: nat, end: Time, ack: Ack)
    | Count(p: nat, ack: Ack)
    | Prove(p: nat, ack: Ack)
    | Retain(p: nat, ack: Ack)
    | Panic(p: nat)
    | Crash(p: nat)
    | MarkAbandoned(now: Time, ack: Ack)
    | PruneRuns(of: string, maxAge: int, maxCount: int, now: Time, ack: Ack)

  const INITIAL: Sys := Sys(EMPTY, map[], map[])

  function NewEntry(drill: string, start: Time, fate: Fate): Entry {
    Entry(drill, start, None, false, [], START.st, false, {}, fate)
  }

  predicate Known(s: Sys, p: nat) {
    p in s.procs && s.procs[p].id in s.hist
  }

  function DoBegin(s: Sys, p: nat, drill: Drill, only: Option<Level>, start: Time, gap: nat, ack: Ack): Sys {
    var levels := SelectLevels(drill, only);
    if p in s.procs || levels.None? || drill.name == "" || start == ZERO_TIME || ack.Failed? then s
    else
      var id := s.db.nextId + gap;
      var db := Store.CreateRun(s.db, drill.name, start, gap, ack).0;
      if ack.Lost? then s.(db := db, hist := s.hist[id := NewEntry(drill.name, start, CreateUnheard)])
      else
        Sys(db,
            s.procs[p := Proc(id, drill, start, ZERO_TIME, levels.value, START, Looping)],
            s.hist[id := NewEntry(drill.name, start, Running)])
  }

  function DoExec(s: Sys, p: nat, resp: Response): Sys
    requires Known(s, p)
  {
    var q := s.procs[p];
    if !q.phase.Looping? || q.todo == [] then s
    else s.(procs := s.procs[p := q.(phase := Writing(Execute(q.prog, q.todo[0], resp)))])
  }

  /** An error while a level's rows are written: the pin stays, the level does not count. */
  function Unwind(q: Proc): Proc
    requires q.phase.Writing?
  {
    q.(phase := Aborting, prog := q.prog.(st := q.phase.pending.st))
  }

  function StepRowOf(o: LevelOutcome): StepRow {
    StepRow(o.level, o.outcome)
  }

  function DoWriteStep(s: Sys, p: nat, ack: Ack): Sys
    requires Known(s, p)
  {
    var q := s.procs[p];
    if !q.phase.Writing? || q.todo == [] then s
    else
      var (db, reply) := Store.AddStep(s.db, q.id, StepRowOf(q.phase.pending.result), ack);
      if reply.Done? then
        s.(db := db, procs := s.procs[p := q.(todo := q.todo[1..], prog := Commit(q.prog, q.phase.pending), phase := Looping)])
      else s.(db := db, procs := s.procs[p := Unwind(q)])
  }

  function DoEvidenceFails(s: Sys, p: nat): Sys
    requires Known(s, p)
  {
    var q := s.procs[p];
    if !q.phase.Writing? then s else s.(procs := s.procs[p := Unwind(q)])
  }

  function FinalOf(prog: Progress, v: Verdict, end: Time): Final {
    Final(v, end, prog.reached, prog.st.bytes, prog.st.files, prog.st.pin, prog.st.pinAt)
  }

  function DoFinish(s: Sys, p: nat, end: Time, ack: Ack): Sys
    requires Known(s, p)
  {
    var q := s.procs[p];
    if !q.phase.Looping? || q.todo != [] then s
    else
      var v := RunVerdict(q.prog.done);
      var (db, reply) := Store.FinishRun(s.db, q.id, FinalOf(q.prog, v, end), ack);
      var e := s.hist[q.id];
      Sys(db,
          s.procs[p := q.(phase := if reply.Done? then Counting else Aborting, end := end)],
          if !Commits(s.db, q.id, ack) then s.hist
          else s.hist[q.id := e.(verdict := Some(v), normal := true, done := q.prog.done, st := q.prog.st)])
  }

  /** The `Run` call of process p is over. */
  function Leave(s: Sys, p: nat, fate: Fate): Sys
    requires Known(s, p)
  {
    var id := s.procs[p].id;
    s.(procs := s.procs - {p}, hist := s.hist[id := s.hist[id].(fate := fate)])
  }

  function DoFinalize(s: Sys, p: nat, end: Time, ack: Ack): Sys
    requires Known(s, p)
  {
    var q := s.procs[p];
    if !q.phase.Aborting? then s
    else
      var db := Store.FinishRun(s.db, q.id, FinalOf(q.prog, Error, end), ack).0;
      var hist := if !Commits(s.db, q.id, ack) then s.hist else s.hist[q.id := s.hist[q.id].(verdict := Some(Error))];
      Leave(s.(db := db, hist := hist), p, if ack.Failed? then FinalizeFailed else Returned)
  }

  function PassLevels(done: seq<LevelOutcome>): seq<Level> {
    if done == [] then []
    else
      var o := done[|done| - 1];
      PassLevels(done[..|done| - 1]) + if o.outcome == Ran(Pass) then [o.level] else []
  }

  function DoCount(s: Sys, p: nat, ack: Ack): Sys
    requires Known(s, p)
  {
    var q := s.procs[p];
    if !q.phase.Counting? then s
    else
      var e := s.hist[q.id];
      Sys(Store.AddBytesRestored(s.db, q.drill.name, q.prog.st.bytes, ack).0,
          s.procs[p := q.(phase := Proving(if RunVerdict(q.prog.done).Pass? then PassLevels(q.prog.done) else []))],
          if ack.Failed? then s.hist else s.hist[q.id := e.(counted := true)])
  }

  function ProveStep(s: Sys, p: nat, ack: Ack): Sys
    requires Known(s, p) && s.procs[p].phase.Proving? && s.procs[p].phase.todo != []
  {
    var q := s.procs[p];
    var lv := q.phase.todo[0];
    var e := s.hist[q.id];
    Sys(Store.RecordProof(s.db, q.drill.name, lv, q.start, ack).0,
        s.procs[p := q.(phase := Proving(q.phase.todo[1..]))],
        if ack.Failed? then s.hist else s.hist[q.id := e.(proved := e.proved + {lv})])
  }

  function DoProve(s: Sys, p: nat, ack: Ack): Sys
    requires Known(s, p)
  {
    var q := s.procs[p];
    if !q.phase.Proving? || q.phase.todo == [] then s
    else if Store.RecordProof(s.db, q.drill.name, q.phase.todo[0], q.start, ack).1.Done? then ProveStep(s, p, ack)
    else Leave(ProveStep(s, p, ack), p, Returned)
  }

  function DoRetain(s: Sys, p: nat, ack: Ack): Sys
    requires Known(s, p)
  {
    var q := s.procs[p];
    if !q.phase.Proving? || q.phase.todo != [] then s
    else
      var db := Store.Prune(s.db, q.drill.name, q.drill.maxAge, q.drill.maxCount, q.end, ack).0;
      Leave(s.(db := db), p, Returned)
  }

  function DoPanic(s: Sys, p: nat): Sys
    requires Known(s, p)
  {
    var q := s.procs[p];
    match q.phase
    case Looping => s.(procs := s.procs[p := q.(phase := Aborting)])
    case Writing(_) => s.(procs := s.procs[p := Unwind(q)])
    case _ => s
  }

  function DoMark(s: Sys, now: Time, ack: Ack): Sys {
    if ack.Failed? then s
    else
      s.(db := Store.MarkAbandonedRuns(s.db, now, ack).0,
         hist := map id | id in s.hist :: if Open(s.db, id) then s.hist[id].(verdict := Some(Error)) else s.hist[id])
  }

  /** One action; an action that is not enabled leaves the system as it is. */
  function Apply(s: Sys, a: Action): Sys {
    match a
    case Begin(p, drill, only, start, gap, ack) => DoBegin(s, p, drill, only, start, gap, ack)
    case MarkAbandoned(now, ack) => DoMark(s, now, ack)
    case PruneRuns(drill, maxAge, maxCount, now, ack) => s.(db := Store.Prune(s.db, drill, maxAge, maxCount, now, ack).0)
    case ExecLevel(p, resp) => if Known(s, p) then DoExec(s, p, resp) else s
    case EvidenceFails(p) => if Known(s, p) then DoEvidenceFails(s, p) else s
    case WriteStep(p, ack) => if Known(s, p) then DoWriteStep(s, p, ack) else s
    case Finish(p, end, ack) => if Known(s, p) then DoFinish(s, p, end, ack) else s
    case Finalize(p, end, ack) => if Known(s, p) then DoFinalize(s, p, end, ack) else s
    case Count(p, ack) => if Known(s, p) then DoCount(s, p, ack) else s
    case Prove(p, ack) => if Known(s, p) then DoProve(s, p, ack) else s
    case Retain(p, ack) => if Known(s, p) then DoRetain(s, p, ack) else s
    case Panic(p) => if Known(s, p) then DoPanic(s, p) else s
    case Crash(p) => if Known(s, p) then Leave(s, p, Crashed) else s
  }

  function Play(s: Sys, acts: seq<Action>): Sys
    decreases |acts|
  {
    if acts == [] then s else Apply(Play(s, acts[..|acts| - 1]), acts[|acts| - 1])
  }

  /** The state after a trace from the empty store. */
  function Reach(acts: seq<Action>): Sys {
    Play(INITIAL, acts)
  }
}
