/** The run of a dump directory drill, as its row tells it. */
module Audit {
  import opened Common
  import opened Store
  import opened Levels
  import opened RunMachine
  import opened Pinning
  import opened Orchestrator

  /** The backup the row names is the one every level of the run judged that ended pass or fail. */
  ghost predicate RowNamesTheBackup(r: Row, levels: seq<Level>, worlds: Level -> World) {
    var run := Dumpdir(worlds, PickNewest);
    var p := RunWith(START, levels, AnswerOf(run));
    var trail := Trail(START, levels, run);
    && |trail| == |p.done|
    && forall i :: 0 <= i < |p.done| && Executed(p.done[i].outcome) ==> r.snapshot != "" && trail[i] == [(r.snapshot, r.snapshotTime)]
  }

  /** A finished run's row tells the pin, and the pin is what the levels judged. */
  lemma RowNamesPin(runs: map<nat, Row>, id: nat, levels: seq<Level>, worlds: Level -> World, d: Dir, status: Verdict, end: Time)
    requires id in runs && RowTells(runs, id, RunWith(START, levels, AnswerOf(Dumpdir(worlds, PickNewest))), status, end)
    requires levels == [] || (StartsOn(levels, worlds, d) && SafeToPin(d))
    ensures RowNamesTheBackup(runs[id], levels, worlds)
  {
    if levels != [] {
      OneBackupPerRun(levels, worlds, d);
    }
  }

  /** A finished run's row in the store, while retention leaves it, names the backup it judged. */
  ghost predicate Audited(after: Db, res: RunReturn, drill: Drill, only: Option<Level>, worlds: Level -> World) {
    res.Finished? && res.id in after.runs ==>
      SelectLevels(drill, only).Some? && RowNamesTheBackup(after.runs[res.id], SelectLevels(drill, only).value, worlds)
  }

  /** The first level finds a dump that is safe to pin, or none at all. */
  ghost predicate SafeFirst(drill: Drill, only: Option<Level>, worlds: Level -> World) {
    && (forall lv :: DirOk(worlds(lv).dir))
    && (SelectLevels(drill, only).Some? && SelectLevels(drill, only).value != [] ==>
          SafeToPin(worlds(SelectLevels(drill, only).value[0]).dir))
  }

  lemma RunIsAudited(before: Db, after: Db, id: nat, drill: Drill, only: Option<Level>, start: Time, end: Time, worlds: Level -> World, faults: Faults, res: RunReturn, k: nat)
    requires RunLeaves(before, after, id, drill, only, start, end, AnswerOf(Dumpdir(worlds, PickNewest)), faults, res, k)
    requires SafeFirst(drill, only, worlds)
    ensures Audited(after, res, drill, only, worlds)
  {
    if res.Finished? && res.id in after.runs {
      var levels := SelectLevels(drill, only).value;
      var d := if levels == [] then worlds(L1).dir else worlds(levels[0]).dir;
      SelectLevelsExact(drill, only);
      assert levels == [] || StartsOn(levels, worlds, d);
      RowNamesPin(after.runs, res.id, levels, worlds, d, res.status, end);
    }
  }

  /** If the executor is the dump directory runner with pick newest, over directories of which the
      first one met is safe to pin, then the row names the backup. */
  ghost predicate AuditedByDumpdir(after: Db, res: RunReturn, drill: Drill, only: Option<Level>, ask: Executor) {
    forall worlds :: SafeFirst(drill, only, worlds) && ask == AnswerOf(Dumpdir(worlds, PickNewest)) ==> Audited(after, res, drill, only, worlds)
  }

  lemma RunIsAuditedByDumpdir(before: Db, after: Db, id: nat, drill: Drill, only: Option<Level>, start: Time, end: Time, ask: Executor, faults: Faults, res: RunReturn, k: nat)
    requires RunLeaves(before, after, id, drill, only, start, end, ask, faults, res, k)
    ensures AuditedByDumpdir(after, res, drill, only, ask)
  {
    forall worlds | SafeFirst(drill, only, worlds) && ask == AnswerOf(Dumpdir(worlds, PickNewest)) ensures Audited(after, res, drill, only, worlds) {
      RunIsAudited(before, after, id, drill, only, start, end, worlds, faults, res, k);
    }
  }

  method RunDumpdirDrill(o: Orchestrator, drill: Drill, only: Option<Level>, start: Time, end: Time, gap: nat, ask: Executor, faults: Faults, ghost s0: Sys, ghost p: nat)
    returns (res: RunReturn, ghost acts: seq<Action>)
    requires s0.db == o.store.View() && p !in s0.procs && 1 <= o.store.nextId
    modifies o.store
    ensures Play(s0, acts).db == o.store.View() && OwnActs(acts, p)
    ensures AuditedByDumpdir(o.store.View(), res, drill, only, ask)
  {
    ghost var k, before, id := 0, o.store.View(), o.store.nextId + gap;
    res, acts, k := o.Run(drill, only, start, end, gap, ask, faults, s0, p);
    RunIsAuditedByDumpdir(before, o.store.View(), id, drill, only, start, end, ask, faults, res, k);
  }
}
