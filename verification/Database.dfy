/** The store as it runs: tables that each statement updates in place. */
module Database {
  import opened Common
  import opened Store

  /** The open database: its tables are fields, and every statement updates them in place. */
  class Connection {
    var runs: map<nat, Row>
    var nextId: nat
    var steps: map<nat, seq<StepRow>>
    var proofs: map<(string, Level), Time>
    var counters: map<string, int>

    function View(): Db
      reads this
    {
      Db(runs, nextId, steps, proofs, counters)
    }

    constructor ()
      ensures View() == EMPTY
    {
      runs, nextId, steps, proofs, counters := map[], 1, map[], map[], map[];
    }

    method CreateRun(drill: string, start: Time, gap: nat, ack: Ack) returns (id: nat, reply: Reply)
      modifies this
      ensures (View(), reply) == Store.CreateRun(old(View()), drill, start, gap, ack)
      ensures reply == Done ==> id == old(nextId) + gap && Open(View(), id)
      ensures reply == Rejected <==> drill == "" || start == ZERO_TIME
      ensures reply == Done <==> drill != "" && start != ZERO_TIME && ack.Acked?
      ensures if drill != "" && start != ZERO_TIME && !ack.Failed?
              then runs == old(runs)[old(nextId) + gap := Row(drill, start, None, ZERO_TIME, None, 0, 0, "", ZERO_TIME)] && nextId == old(nextId) + gap + 1
              else runs == old(runs) && nextId == old(nextId)
    {
      id := 0;
      if drill == "" || start == ZERO_TIME {
        return 0, Rejected;
      }
      if ack.Failed? {
        return 0, Broken;
      }
      id := nextId + gap;
      runs := runs[id := NewRow(drill, start)];
      steps := steps[id := []];
      nextId := id + 1;
      reply := Heard(ack, Done);
    }

    method FinishRun(id: nat, f: Final, ack: Ack) returns (reply: Reply)
      modifies this`runs
      ensures (View(), reply) == Store.FinishRun(old(View()), id, f, ack)
      ensures ack.Acked? && id != 0 ==>
                && (reply == NotFound <==> id !in old(runs))
                && (reply == AlreadyFinished <==> id in old(runs) && old(runs)[id].result.Some?)
                && (reply == Done <==> id in old(runs) && old(runs)[id].result.None?)
      ensures if id != 0 && !ack.Failed? && id in old(runs) && old(runs)[id].result.None?
              then runs == old(runs)[id := Row(old(runs)[id].drill, old(runs)[id].startedAt, Some(f.result), f.finishedAt, f.levelReached, f.bytes, f.files, f.snapshot, f.snapshotTime)]
              else runs == old(runs)
    {
      if id == 0 {
        return Rejected;
      }
      if ack.Failed? {
        return Broken;
      }
      var affected := 0;
      if id in runs && runs[id].result.None? {
        runs := runs[id := Closed(runs[id], f)];
        affected := 1;
      }
      if affected == 0 {
        return Heard(ack, if id in runs then AlreadyFinished else NotFound);
      }
      reply := Heard(ack, Done);
    }

    method MarkAbandonedRuns(now: Time, ack: Ack) returns (affected: nat, reply: Reply)
      modifies this`runs
      ensures (View(), reply) == Store.MarkAbandonedRuns(old(View()), now, ack)
      ensures !ack.Failed? ==> affected == |set id | id in old(runs) && old(runs)[id].result.None?|
      ensures !ack.Failed? ==> forall id :: id in runs ==> !Open(View(), id)
      ensures !ack.Failed? ==> runs.Keys == old(runs).Keys && forall id :: id in runs ==>
                runs[id] == if old(runs)[id].result.Some? then old(runs)[id] else old(runs)[id].(result := Some(Error), finishedAt := now)
      ensures ack.Failed? ==> runs == old(runs)
    {
      affected := 0;
      if ack.Failed? {
        return 0, Broken;
      }
      affected := |set id | id in runs && runs[id].result.None?|;
      runs := map id | id in runs :: Abandon(runs[id], now);
      reply := Heard(ack, Done);
    }

    method AddStep(id: nat, row: StepRow, ack: Ack) returns (reply: Reply)
      modifies this`steps
      ensures (View(), reply) == Store.AddStep(old(View()), id, row, ack)
      ensures reply == Done <==> id in runs && ack.Acked?
      ensures if id in runs && !ack.Failed?
              then steps == old(steps)[id := (if id in old(steps) then old(steps)[id] else []) + [row]]
              else steps == old(steps)
    {
      if ack.Failed? || id !in runs {
        return Broken;
      }
      var sofar := if id in steps then steps[id] else [];
      steps := steps[id := sofar + [row]];
      reply := Heard(ack, Done);
    }

    method AddBytesRestored(drill: string, n: int, ack: Ack) returns (reply: Reply)
      modifies this`counters
      ensures (View(), reply) == Store.AddBytesRestored(old(View()), drill, n, ack)
      ensures reply == Done <==> n <= 0 || ack.Acked?
      ensures if n > 0 && !ack.Failed?
              then counters == old(counters)[drill := (if drill in old(counters) then old(counters)[drill] else 0) + n]
              else counters == old(counters)
    {
      if n <= 0 {
        return Done;
      }
      if ack.Failed? {
        return Broken;
      }
      if drill in counters {
        counters := counters[drill := counters[drill] + n];
      } else {
        counters := counters[drill := n];
      }
      reply := Heard(ack, Done);
    }

    method RecordProof(drill: string, level: Level, at: Time, ack: Ack) returns (reply: Reply)
      modifies this`proofs
      ensures (View(), reply) == Store.RecordProof(old(View()), drill, level, at, ack)
      ensures reply == Done <==> drill != "" && at != ZERO_TIME && ack.Acked?
      ensures if drill != "" && at != ZERO_TIME && !ack.Failed?
              then && proofs.Keys == old(proofs).Keys + {(drill, level)}
                   && (forall k :: k in old(proofs) && k != (drill, level) ==> proofs[k] == old(proofs)[k])
                   && at <= proofs[(drill, level)]
                   && (if (drill, level) in old(proofs)
                       then old(proofs)[(drill, level)] <= proofs[(drill, level)] && proofs[(drill, level)] in {at, old(proofs)[(drill, level)]}
                       else proofs[(drill, level)] == at)
              else proofs == old(proofs)
    {
      if drill == "" || at == ZERO_TIME {
        return Rejected;
      }
      if ack.Failed? {
        return Broken;
      }
      if (drill, level) !in proofs {
        proofs := proofs[(drill, level) := at];
      } else if proofs[(drill, level)] < at {
        proofs := proofs[(drill, level) := at];
      } else {
        assert proofs == proofs[(drill, level) := proofs[(drill, level)]];
      }
      reply := Heard(ack, Done);
    }

    method Prune(drill: string, maxAge: int, maxCount: int, now: Time, ack: Ack) returns (deleted: nat, reply: Reply)
      modifies this`runs, this`steps
      ensures (View(), reply) == Store.Prune(old(View()), drill, maxAge, maxCount, now, ack)
      ensures deleted == |old(runs).Keys - runs.Keys|
    {
      deleted := 0;
      var ageOn, countOn := maxAge > 0, maxCount > 0;
      if ageOn && now == ZERO_TIME {
        return 0, Rejected;
      }
      if !ageOn && !countOn {
        return 0, Done;
      }
      if ack.Failed? {
        return 0, Broken;
      }
      var before := runs.Keys;
      if ageOn && countOn {
        runs := PruneByAgeAndCount(runs, drill, now - maxAge, maxCount);
      } else if ageOn {
        runs := PruneByAge(runs, drill, now - maxAge);
      } else {
        runs := PruneByCount(runs, drill, maxCount);
      }
      deleted := |before - runs.Keys|;
      steps := map id | id in steps && id in runs :: steps[id];
      reply := Heard(ack, Done);
    }
  }
}
