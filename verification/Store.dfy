/**
 The SQLite store as atomic steps over tables: each statement is a function on a `Db` value, which
 the run machine interleaves and the class `Database` performs in place.
 */
module Store {
  import opened Common

  /** A row of `runs`. A `None` result is SQL NULL: the run has no verdict yet. */
  datatype Row = Row(
    drill: string,
    startedAt: Time,
    result: Option<Verdict>,
    finishedAt: Time,
    levelReached: Option<Level>,
    bytes: int,
    files: int,
    snapshot: string,
    snapshotTime: Time)

  /** What FinishRun writes. */
  datatype Final = Final(
    result: Verdict,
    finishedAt: Time,
    levelReached: Option<Level>,
    bytes: int,
    files: int,
    snapshot: string,
    snapshotTime: Time)

  /** A row of `run_steps`; its idx is its position. */
  datatype StepRow = StepRow(kind: Level, status: Outcome)

  datatype Db = Db(
    runs: map<nat, Row>,
    nextId: nat,
    steps: map<nat, seq<StepRow>>,
    proofs: map<(string, Level), Time>,
    counters: map<string, int>)

  /** How a write ends: acknowledged, done but reported as failed, or failed without effect. */
  datatype Ack = Acked | Lost | Failed

  datatype Reply = Done | AlreadyFinished | NotFound | Rejected | Broken

  const EMPTY: Db := Db(map[], 1, map[], map[], map[])

  function NewRow(drill: string, start: Time): Row {
    Row(drill, start, None, ZERO_TIME, None, 0, 0, "", ZERO_TIME)
  }

  function Closed(r: Row, f: Final): Row {
    Row(r.drill, r.startedAt, Some(f.result), f.finishedAt, f.levelReached, f.bytes, f.files, f.snapshot, f.snapshotTime)
  }

  /** The row exists and has no verdict: the WHERE clause of FinishRun. */
  predicate Open(db: Db, id: nat) {
    id in db.runs && db.runs[id].result.None?
  }

  /** FinishRun takes effect. */
  predicate Commits(db: Db, id: nat, ack: Ack) {
    id != 0 && !ack.Failed? && Open(db, id)
  }

  /** What the caller of a write hears when the statement itself would have answered `reply`. */
  function Heard(ack: Ack, reply: Reply): Reply {
    if ack.Acked? then reply else Broken
  }

  // AUTOINCREMENT may leave gaps (`gap`), but never reuses or goes below an id it handed out.
  function CreateRun(db: Db, drill: string, start: Time, gap: nat, ack: Ack): (Db, Reply) {
    if drill == "" || start == ZERO_TIME then (db, Rejected)
    else if ack.Failed? then (db, Broken)
    else
      var id := db.nextId + gap;
      (db.(runs := db.runs[id := NewRow(drill, start)], nextId := id + 1, steps := db.steps[id := []]), Heard(ack, Done))
  }

  function FinishRun(db: Db, id: nat, f: Final, ack: Ack): (Db, Reply) {
    if id == 0 then (db, Rejected)
    else if ack.Failed? then (db, Broken)
    else if id !in db.runs then (db, Heard(ack, NotFound))
    else if db.runs[id].result.Some? then (db, Heard(ack, AlreadyFinished))
    else (db.(runs := db.runs[id := Closed(db.runs[id], f)]), Heard(ack, Done))
  }

  function Abandon(r: Row, now: Time): Row {
    if r.result.None? then r.(result := Some(Error), finishedAt := now) else r
  }

  function MarkAbandonedRuns(db: Db, now: Time, ack: Ack): (Db, Reply) {
    if ack.Failed? then (db, Broken)
    else (db.(runs := map id | id in db.runs :: Abandon(db.runs[id], now)), Heard(ack, Done))
  }

  // run_steps.run_id references runs(id): a step of a deleted run is refused.
  function AddStep(db: Db, id: nat, row: StepRow, ack: Ack): (Db, Reply) {
    if ack.Failed? then (db, Broken)
    else if id !in db.runs then (db, Broken)
    else (db.(steps := db.steps[id := StepsOf(db, id) + [row]]), Heard(ack, Done))
  }

  function StepsOf(db: Db, id: nat): seq<StepRow> {
    if id in db.steps then db.steps[id] else []
  }

  function Counter(db: Db, drill: string): int {
    if drill in db.counters then db.counters[drill] else 0
  }

  function AddBytesRestored(db: Db, drill: string, n: int, ack: Ack): (Db, Reply) {
    if n <= 0 then (db, Done)
    else if ack.Failed? then (db, Broken)
    else (db.(counters := db.counters[drill := Counter(db, drill) + n]), Heard(ack, Done))
  }

  function Later(a: Time, b: Time): Time {
    if a < b then b else a
  }

  function RecordProof(db: Db, drill: string, level: Level, at: Time, ack: Ack): (Db, Reply) {
    if drill == "" || at == ZERO_TIME then (db, Rejected)
    else if ack.Failed? then (db, Broken)
    else
      var key := (drill, level);
      var merged := if key in db.proofs then Later(db.proofs[key], at) else at;
      (db.(proofs := db.proofs[key := merged]), Heard(ack, Done))
  }

  // ---- retention ----

  function DrillIds(runs: map<nat, Row>, drill: string): set<nat> {
    set id | id in runs && runs[id].drill == drill
  }

  lemma {:induction false} HasMax(s: set<nat>)
    requires s != {}
    ensures exists m :: m in s && forall x :: x in s ==> x <= m
    decreases |s|
  {
    var x :| x in s;
    if s == {x} {
      assert x in s;
    } else {
      assert s - {x} != {};
      HasMax(s - {x});
      var m :| m in s - {x} && forall y :: y in s - {x} ==> y <= m;
      var top := if x <= m then m else x;
      forall y | y in s ensures y <= top {
        assert y == x || y in s - {x};
      }
      assert top in s;
    }
  }

  function Max(s: set<nat>): (m: nat)
    requires s != {}
    ensures m in s && forall x :: x in s ==> x <= m
  {
    HasMax(s);
    var m :| m in s && forall x :: x in s ==> x <= m;
    m
  }

  /** SELECT id ... ORDER BY id DESC LIMIT n. */
  function Newest(ids: set<nat>, n: int): (r: set<nat>)
    ensures r <= ids
    decreases |ids|
  {
    if n <= 0 || ids == {} then {}
    else
      var m := Max(ids);
      {m} + Newest(ids - {m}, n - 1)
  }

  function PruneByAge(runs: map<nat, Row>, drill: string, cutoff: Time): map<nat, Row> {
    map id | id in runs && !(runs[id].drill == drill && runs[id].startedAt < cutoff) :: runs[id]
  }

  function PruneByCount(runs: map<nat, Row>, drill: string, n: int): map<nat, Row> {
    var newest := Newest(DrillIds(runs, drill), n);
    map id | id in runs && !(runs[id].drill == drill && id !in newest) :: runs[id]
  }

  function PruneByAgeAndCount(runs: map<nat, Row>, drill: string, cutoff: Time, n: int): map<nat, Row> {
    var newest := Newest(DrillIds(runs, drill), n);
    map id | id in runs && !(runs[id].drill == drill && (runs[id].startedAt < cutoff || id !in newest)) :: runs[id]
  }

  function Retained(runs: map<nat, Row>, drill: string, maxAge: int, maxCount: int, now: Time): map<nat, Row> {
    if maxAge > 0 && maxCount > 0 then PruneByAgeAndCount(runs, drill, now - maxAge, maxCount)
    else if maxAge > 0 then PruneByAge(runs, drill, now - maxAge)
    else if maxCount > 0 then PruneByCount(runs, drill, maxCount)
    else runs
  }

  // Steps go with their run (ON DELETE CASCADE); proofs and counters are never pruned.
  function Prune(db: Db, drill: string, maxAge: int, maxCount: int, now: Time, ack: Ack): (Db, Reply) {
    if maxAge > 0 && now == ZERO_TIME then (db, Rejected)
    else if maxAge <= 0 && maxCount <= 0 then (db, Done)
    else if ack.Failed? then (db, Broken)
    else
      var kept := Retained(db.runs, drill, maxAge, maxCount, now);
      (db.(runs := kept, steps := map id | id in db.steps && id in kept :: db.steps[id]), Heard(ack, Done))
  }
}
