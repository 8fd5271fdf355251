/** What every action keeps: the invariant of the run machine. */
module RunInvariant {
  import opened Common
  import opened Store
  import opened Levels
  import opened RunMachine

  function StepRows(done: seq<LevelOutcome>): seq<StepRow> {
    seq(|done|, i requires 0 <= i < |done| => StepRowOf(done[i]))
  }

  predicate PassedAt(done: seq<LevelOutcome>, lv: Level) {
    exists i :: 0 <= i < |done| && done[i].level == lv && done[i].outcome == Ran(Pass)
  }

  ghost predicate EntryOk(e: Entry) {
    && e.drill != "" && e.start != ZERO_TIME
    && (e.normal ==>
          && Collapsed(e.done)
          && e.st.bytes == SumBytes(e.done)
          && e.verdict == Some(RunVerdict(e.done)))
    && (!e.normal ==> !e.counted && e.proved == {} && (e.verdict.None? || e.verdict == Some(Error)))
    && (e.proved != {} ==> e.verdict == Some(Pass))
    && (forall lv :: lv in e.proved ==> PassedAt(e.done, lv))
  }

  ghost predicate RowOk(db: Db, id: nat, r: Row, e: Entry) {
    && r.drill == e.drill && r.startedAt == e.start && r.result == e.verdict
    && (r.result.None? ==> e.fate != Returned)
    && (e.normal ==>
          && r.bytes == e.st.bytes && r.files == e.st.files
          && r.snapshot == e.st.pin && r.snapshotTime == e.st.pinAt
          && r.levelReached == LastRan(e.done).0
          && StepsOf(db, id) == StepRows(e.done))
  }

  ghost predicate PhaseOk(db: Db, q: Proc, e: Entry) {
    match q.phase
    case Looping => !e.normal && (q.id in db.runs ==> StepsOf(db, q.id) == StepRows(q.prog.done))
    case Writing(pd) =>
      && !e.normal && (q.id in db.runs ==> StepsOf(db, q.id) == StepRows(q.prog.done))
      && q.todo != [] && Consistent(Commit(q.prog, pd))
      && pd.st.bytes == q.prog.st.bytes
    case Aborting => true
    case Counting => e.normal && !e.counted && e.done == q.prog.done && e.st == q.prog.st
    case Proving(todo) =>
      && e.normal && e.done == q.prog.done && e.st == q.prog.st
      && (todo != [] ==> e.verdict == Some(Pass))
      && (forall lv :: lv in todo ==> PassedAt(e.done, lv))
  }

  ghost predicate ProcOk(s: Sys, q: Proc) {
    && q.id in s.hist
    && s.hist[q.id].drill == q.drill.name && s.hist[q.id].start == q.start
    && s.hist[q.id].fate == Running
    && Consistent(q.prog)
    && PhaseOk(s.db, q, s.hist[q.id])
  }

  ghost predicate IdsOk(s: Sys) {
    && 1 <= s.db.nextId
    && (forall id :: id in s.hist ==> 1 <= id < s.db.nextId)
    && (forall id :: id in s.db.runs ==> id in s.hist)
    && (forall p1, p2 :: p1 in s.procs && p2 in s.procs && p1 != p2 ==> s.procs[p1].id != s.procs[p2].id)
  }

  ghost predicate EntriesOk(s: Sys) {
    forall id :: id in s.hist ==> EntryOk(s.hist[id])
  }

  ghost predicate RowsOk(s: Sys) {
    forall id :: id in s.db.runs ==> id in s.hist && RowOk(s.db, id, s.db.runs[id], s.hist[id])
  }

  ghost predicate ProcsOk(s: Sys) {
    forall p :: p in s.procs ==> ProcOk(s, s.procs[p])
  }

  /** The runs, the rows and the processes agree. */
  ghost predicate RunsOk(s: Sys) {
    IdsOk(s) && EntriesOk(s) && RowsOk(s) && ProcsOk(s)
  }

  // ---- proofs ----

  predicate Recorded(hist: map<nat, Entry>, id: nat, drill: string, lv: Level, at: Time) {
    id in hist && hist[id].drill == drill && lv in hist[id].proved && hist[id].start == at
  }

  ghost predicate ProofOk(s: Sys, drill: string, lv: Level, at: Time) {
    exists id :: Recorded(s.hist, id, drill, lv, at)
  }

  /** A proof time is the latest start of the runs that recorded it. */
  ghost predicate ProofsOk(s: Sys) {
    && (forall drill, lv :: (drill, lv) in s.db.proofs ==> ProofOk(s, drill, lv, s.db.proofs[(drill, lv)]))
    && (forall id, lv :: id in s.hist && lv in s.hist[id].proved ==>
          (s.hist[id].drill, lv) in s.db.proofs && s.hist[id].start <= s.db.proofs[(s.hist[id].drill, lv)])
  }

  // ---- byte counters ----

  function Weight(hist: map<nat, Entry>, id: nat, drill: string, counted: bool): nat {
    if id in hist && hist[id].drill == drill && hist[id].st.bytes > 0 && (if counted then hist[id].counted else hist[id].normal)
    then hist[id].st.bytes else 0
  }

  /** Bytes restored by the runs of a drill with ids below n: those whose counter update took
      effect, or all that finished normally. */
  function RestoredBytes(hist: map<nat, Entry>, n: nat, drill: string, counted: bool): nat {
    if n == 0 then 0 else RestoredBytes(hist, n - 1, drill, counted) + Weight(hist, n - 1, drill, counted)
  }

  ghost predicate CountersOk(s: Sys) {
    forall drill :: Counter(s.db, drill) == RestoredBytes(s.hist, s.db.nextId, drill, true)
  }

  ghost predicate Inv(s: Sys) {
    RunsOk(s) && ProofsOk(s) && CountersOk(s)
  }

  // ---- frames ----

  lemma ProofsFrame(s: Sys, t: Sys)
    requires ProofsOk(s) && s.db.proofs == t.db.proofs
    requires forall id :: id in s.hist ==> id in t.hist && t.hist[id].drill == s.hist[id].drill && t.hist[id].start == s.hist[id].start && t.hist[id].proved == s.hist[id].proved
    requires forall id :: id in t.hist && id !in s.hist ==> t.hist[id].proved == {}
    ensures ProofsOk(t)
  {
    forall drill, lv | (drill, lv) in t.db.proofs ensures ProofOk(t, drill, lv, t.db.proofs[(drill, lv)]) {
      var id :| Recorded(s.hist, id, drill, lv, s.db.proofs[(drill, lv)]);
      assert Recorded(t.hist, id, drill, lv, t.db.proofs[(drill, lv)]);
    }
  }

  lemma {:induction false} RestoredFrame(h: map<nat, Entry>, g: map<nat, Entry>, n: nat, m: nat, drill: string, counted: bool)
    requires n <= m
    requires forall id: nat :: id < n ==> Weight(h, id, drill, counted) == Weight(g, id, drill, counted)
    requires forall id: nat :: n <= id < m ==> Weight(g, id, drill, counted) == 0
    ensures RestoredBytes(h, n, drill, counted) == RestoredBytes(g, m, drill, counted)
    decreases m
  {
    if n < m {
      RestoredFrame(h, g, n, m - 1, drill, counted);
    } else if n > 0 {
      RestoredFrame(h, g, n - 1, m - 1, drill, counted);
    }
  }

  lemma CountersFrame(s: Sys, t: Sys)
    requires CountersOk(s) && IdsOk(s) && s.db.counters == t.db.counters && s.db.nextId <= t.db.nextId
    requires forall id :: id in s.hist ==> id in t.hist && t.hist[id].drill == s.hist[id].drill && t.hist[id].counted == s.hist[id].counted && (s.hist[id].counted ==> t.hist[id].st == s.hist[id].st)
    requires forall id :: id in t.hist && id !in s.hist ==> !t.hist[id].counted
    ensures CountersOk(t)
  {
    forall drill ensures Counter(t.db, drill) == RestoredBytes(t.hist, t.db.nextId, drill, true) {
      RestoredFrame(s.hist, t.hist, s.db.nextId, t.db.nextId, drill, true);
      assert Counter(s.db, drill) == RestoredBytes(s.hist, s.db.nextId, drill, true);
    }
  }
}
