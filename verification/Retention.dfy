/** The three DELETE statements of retention are one policy, and what composing them would do. */
module Retention {
  import opened Common
  import opened Store

  function Newer(ids: set<nat>, id: nat): set<nat> {
    set j | j in ids && id < j
  }

  lemma {:induction false} NewestRank(ids: set<nat>, n: int, id: nat)
    requires id in ids
    ensures id in Newest(ids, n) <==> |Newer(ids, id)| < n
    decreases |ids|
  {
    if n > 0 {
      var m := Max(ids);
      if id == m {
        assert Newer(ids, id) == {};
      } else {
        NewestRank(ids - {m}, n - 1, id);
        assert Newer(ids, id) == Newer(ids - {m}, id) + {m};
      }
    }
  }

  lemma {:induction false} NewestSize(ids: set<nat>, n: int)
    requires n >= 0
    ensures |Newest(ids, n)| == if |ids| < n then |ids| else n
    decreases |ids|
  {
    if n > 0 && ids != {} {
      var m := Max(ids);
      NewestSize(ids - {m}, n - 1);
      assert Newest(ids, n) == {m} + Newest(ids - {m}, n - 1);
      assert |ids| == |ids - {m}| + 1;
    }
  }

  lemma SmallerSet(a: set<nat>, b: set<nat>)
    requires a <= b
    ensures |a| <= |b| && (|a| == |b| ==> a == b)
  {
    assert b == a + (b - a);
  }

  /** The policy: other drills' runs stay; this drill's stay when young enough and recent enough. */
  ghost predicate Keeps(runs: map<nat, Row>, drill: string, maxAge: int, maxCount: int, now: Time, id: nat) {
    && id in runs
    && (runs[id].drill == drill ==>
          && (maxAge > 0 ==> now - maxAge <= runs[id].startedAt)
          && (maxCount > 0 ==> |Newer(DrillIds(runs, drill), id)| < maxCount))
  }

  lemma NewerAre(runs: map<nat, Row>, drill: string, id: nat)
    ensures Newer(DrillIds(runs, drill), id) == set j | j in runs && runs[j].drill == drill && id < j
  {
  }

  /** Whichever DELETE runs, it keeps exactly the rows the policy keeps, unchanged. */
  lemma OnePolicy(runs: map<nat, Row>, drill: string, maxAge: int, maxCount: int, now: Time, id: nat)
    ensures var kept := Retained(runs, drill, maxAge, maxCount, now);
            (id in kept <==> Keeps(runs, drill, maxAge, maxCount, now, id)) && (id in kept ==> kept[id] == runs[id])
    ensures id in Retained(runs, drill, maxAge, maxCount, now) <==>
              && id in runs
              && (runs[id].drill == drill && maxAge > 0 ==> runs[id].startedAt >= now - maxAge)
              && (runs[id].drill == drill && maxCount > 0 ==> |set j | j in runs && runs[j].drill == drill && id < j| < maxCount)
  {
    NewerAre(runs, drill, id);
    if id in runs && runs[id].drill == drill {
      NewestRank(DrillIds(runs, drill), maxCount, id);
    }
  }

  lemma PruneIdempotent(runs: map<nat, Row>, drill: string, maxAge: int, maxCount: int, now: Time)
    ensures var once := Retained(runs, drill, maxAge, maxCount, now);
            Retained(once, drill, maxAge, maxCount, now) == once
  {
    var once := Retained(runs, drill, maxAge, maxCount, now);
    var twice := Retained(once, drill, maxAge, maxCount, now);
    forall id: nat ensures id in once ==> id in twice && twice[id] == once[id] {
      OnePolicy(runs, drill, maxAge, maxCount, now, id);
      OnePolicy(once, drill, maxAge, maxCount, now, id);
      SmallerSet(Newer(DrillIds(once, drill), id), Newer(DrillIds(runs, drill), id));
    }
    assert twice.Keys <= once.Keys;
  }

  /** What a prune that takes effect leaves: exactly the rows the policy keeps, unchanged. One without
      effect, and one refused for a missing clock, leave them all. */
  lemma PruneKeepsExactly(db: Db, drill: string, maxAge: int, maxCount: int, now: Time, ack: Ack, id: nat)
    ensures var after := Prune(db, drill, maxAge, maxCount, now, ack).0;
            && (id in after.runs ==> id in db.runs && after.runs[id] == db.runs[id])
            && (Prune(db, drill, maxAge, maxCount, now, ack).1 == Rejected <==> maxAge > 0 && now == ZERO_TIME)
            && (!ack.Failed? && (maxAge > 0 || maxCount > 0) && (maxAge > 0 ==> now != ZERO_TIME) ==>
                  (id in after.steps <==> id in db.steps && id in after.runs))
            && (id in after.runs <==>
                  if ack.Failed? || (maxAge > 0 && now == ZERO_TIME) then id in db.runs
                  else Keeps(db.runs, drill, maxAge, maxCount, now, id))
  {
    OnePolicy(db.runs, drill, maxAge, maxCount, now, id);
  }

  /** Pruning touches one drill's rows and their steps, and nothing else in the store. */
  lemma PruneLeavesTheRest(db: Db, drill: string, maxAge: int, maxCount: int, now: Time, ack: Ack, id: nat)
    ensures var after := Prune(db, drill, maxAge, maxCount, now, ack).0;
            && after.proofs == db.proofs && after.counters == db.counters && after.nextId == db.nextId
            && (id in db.runs && db.runs[id].drill != drill ==> id in after.runs)
            && (id in after.runs ==> id in db.runs && after.runs[id] == db.runs[id] && StepsOf(after, id) == StepsOf(db, id))
            && (Prune(db, drill, maxAge, maxCount, now, ack).1.Done? && maxCount > 0 ==> |DrillIds(after.runs, drill)| <= maxCount)
  {
    var after := Prune(db, drill, maxAge, maxCount, now, ack).0;
    OnePolicy(db.runs, drill, maxAge, maxCount, now, id);
    if Prune(db, drill, maxAge, maxCount, now, ack).1.Done? && maxCount > 0 {
      var newest := Newest(DrillIds(db.runs, drill), maxCount);
      NewestSize(DrillIds(db.runs, drill), maxCount);
      assert DrillIds(after.runs, drill) <= newest;
      SmallerSet(DrillIds(after.runs, drill), newest);
    }
  }

  lemma CountThenAge(runs: map<nat, Row>, drill: string, cutoff: Time, n: int)
    ensures PruneByAge(PruneByCount(runs, drill, n), drill, cutoff) == PruneByAgeAndCount(runs, drill, cutoff, n)
  {
  }

  /** If something is left out of the newest n, they are n, and all newer than it. */
  lemma NewestAbove(ids: set<nat>, n: int, id: nat)
    requires n > 0 && id in ids && id !in Newest(ids, n)
    ensures |Newest(ids, n)| == n && forall j :: j in Newest(ids, n) ==> id < j
  {
    NewestRank(ids, n, id);
    NewestSize(ids, n);
    SmallerSet(Newer(ids, id), ids);
    forall j | j in Newest(ids, n) ensures id < j {
      NewestRank(ids, n, j);
      if j < id {
        SmallerSet(Newer(ids, id), Newer(ids, j));
      }
    }
  }

  lemma ShareOfNewest(all: set<nat>, some: set<nat>, n: int)
    requires some <= all
    ensures some * Newest(all, n) <= Newest(some, n)
  {
    forall id | id in some * Newest(all, n) ensures id in Newest(some, n) {
      NewestRank(all, n, id);
      NewestRank(some, n, id);
      SmallerSet(Newer(some, id), Newer(all, id));
    }
  }

  lemma AllYoungKept(all: set<nat>, some: set<nat>, n: int)
    requires n > 0 && some <= all && some <= Newest(all, n)
    ensures Newest(some, n) == some
  {
    NewestSize(some, n);
    NewestSize(all, n);
    SmallerSet(some, Newest(all, n));
    SmallerSet(Newest(some, n), some);
  }

  lemma OnlyNewestKept(all: set<nat>, some: set<nat>, n: int, id: nat)
    requires n > 0 && some <= all && Newest(all, n) <= some && id in some && id !in Newest(all, n)
    ensures id !in Newest(some, n)
  {
    NewestAbove(all, n, id);
    SmallerSet(Newest(all, n), Newer(some, id));
    NewestRank(some, n, id);
  }

  lemma Diverges(all: set<nat>, some: set<nat>, n: int) returns (m: nat)
    requires n > 0 && some <= all && !(some <= Newest(all, n)) && !(Newest(all, n) <= some)
    ensures m in Newest(some, n) && m !in Newest(all, n)
  {
    var top := Newest(all, n);
    var extra := some - top;
    assert extra != {};
    m := Max(extra);
    NewestAbove(all, n, m);
    var share := some * top;
    forall j | j in Newer(some, m) ensures j in share {
      assert j in extra ==> j <= m;
    }
    SmallerSet(Newer(some, m), share);
    SmallerSet(share, top);
    assert share != top;
    NewestRank(some, n, m);
  }

  /** Among a subset of the ids, the newest n are the subset's share of the overall newest n exactly
      when one of the two sets contains the other. */
  lemma NewestOfSubset(all: set<nat>, some: set<nat>, n: int)
    requires some <= all && n > 0
    ensures some * Newest(all, n) <= Newest(some, n)
    ensures Newest(some, n) == some * Newest(all, n) <==> some <= Newest(all, n) || Newest(all, n) <= some
  {
    var top := Newest(all, n);
    ShareOfNewest(all, some, n);
    if some <= top {
      AllYoungKept(all, some, n);
    } else if top <= some {
      forall id | id in Newest(some, n) ensures id in top {
        if id !in top {
          OnlyNewestKept(all, some, n, id);
        }
      }
    } else {
      var m := Diverges(all, some, n);
      assert m !in some * top;
    }
  }

  function Young(runs: map<nat, Row>, drill: string, cutoff: Time): set<nat> {
    set id | id in runs && runs[id].drill == drill && cutoff <= runs[id].startedAt
  }

  /** Pruning by age first and by count second keeps at least what one combined DELETE keeps. The
      two agree exactly when every young run is among the newest n, or all newest n are young. */
  lemma AgeThenCount(runs: map<nat, Row>, drill: string, cutoff: Time, n: int)
    requires n > 0
    ensures var both := PruneByAgeAndCount(runs, drill, cutoff, n);
            var staged := PruneByCount(PruneByAge(runs, drill, cutoff), drill, n);
            var young, newest := Young(runs, drill, cutoff), Newest(DrillIds(runs, drill), n);
            && both.Keys <= staged.Keys
            && (staged == both <==> young <= newest || newest <= young)
  {
    var both := PruneByAgeAndCount(runs, drill, cutoff, n);
    var aged := PruneByAge(runs, drill, cutoff);
    var staged := PruneByCount(aged, drill, n);
    var young, newest := Young(runs, drill, cutoff), Newest(DrillIds(runs, drill), n);
    assert young <= DrillIds(runs, drill);
    NewestOfSubset(DrillIds(runs, drill), young, n);
    assert DrillIds(aged, drill) == young;
    assert both.Keys == (set id | id in runs && runs[id].drill != drill) + young * newest;
    assert staged.Keys == (set id | id in runs && runs[id].drill != drill) + Newest(young, n);
    if Newest(young, n) == young * newest {
      assert staged == both;
    } else {
      var id :| id in Newest(young, n) && id !in young * newest;
      assert id in staged && id !in both;
    }
  }

  function Dated(start: Time): Row {
    NewRow("db", start)
  }

  const OLD_NEWEST: map<nat, Row> := map[1 := Dated(5), 2 := Dated(1)]

  /** The two differ where the newest run is too old: keeping one run younger than 3, the combined
      DELETE keeps none, age first keeps run 1. */
  lemma AgeFirstKeepsMore()
    ensures 1 !in PruneByAgeAndCount(OLD_NEWEST, "db", 3, 1)
    ensures 1 in PruneByCount(PruneByAge(OLD_NEWEST, "db", 3), "db", 1)
  {
    var aged := PruneByAge(OLD_NEWEST, "db", 3);
    assert DrillIds(OLD_NEWEST, "db") == {1, 2} && DrillIds(aged, "db") == {1};
    assert Newer({1, 2}, 1) == {2} && Newer({1}, 1) == {};
    NewestRank({1, 2}, 1, 1);
    NewestRank({1}, 1, 1);
  }
}
