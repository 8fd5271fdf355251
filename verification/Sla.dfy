/** Staleness read against the proof store: what the Proof SLA says of the runs that happened. */
module Sla {
  import opened Common
  import opened Levels
  import opened RunMachine
  import opened RunInvariant
  import opened RunSteps
  import opened RunTheorems
  import opened Staleness

  /** The sweeper's reading of the headline proof. A drill without levels, a level never proven and a
      failed read all come back as the zero time. */
  function LastProven(s: Sys, d: Drill, readable: bool): Time {
    match HeadlineLevel(d)
    case None => ZERO_TIME
    case Some(lv) => if readable && (d.name, lv) in s.db.proofs then s.db.proofs[(d.name, lv)] else ZERO_TIME
  }

  /** A run of the drill that recorded a proof of the level, with the outcomes that earned it. */
  ghost predicate Proves(acts: seq<Action>, id: nat, drill: string, lv: Level) {
    var hist := Reach(acts).hist;
    id in hist && lv in hist[id].proved && Proven(acts, id, drill, lv, hist[id].start)
  }

  lemma RecordedIsProven(acts: seq<Action>, id: nat, lv: Level)
    requires id in Reach(acts).hist && lv in Reach(acts).hist[id].proved
    ensures Proves(acts, id, Reach(acts).hist[id].drill, lv)
  {
    var e := Reach(acts).hist[id];
    ReachInv(acts);
    assert EntryOk(e);
    ProvenByTrace(acts, id, lv);
  }

  /** The stored proof is the start of the latest run that proved the level. */
  lemma ProofIsLatest(acts: seq<Action>, drill: string, lv: Level)
    ensures var s := Reach(acts);
            && ((drill, lv) in s.db.proofs <==> exists id :: Proves(acts, id, drill, lv))
            && ((drill, lv) in s.db.proofs ==>
                  var at := s.db.proofs[(drill, lv)];
                  && at != ZERO_TIME
                  && (exists id :: Proves(acts, id, drill, lv) && s.hist[id].start == at)
                  && forall id :: Proves(acts, id, drill, lv) ==> s.hist[id].start <= at)
  {
    var s := Reach(acts);
    ReachInv(acts);
    if (drill, lv) in s.db.proofs {
      assert ProofOk(s, drill, lv, s.db.proofs[(drill, lv)]);
      var id :| Recorded(s.hist, id, drill, lv, s.db.proofs[(drill, lv)]);
      assert EntryOk(s.hist[id]);
      RecordedIsProven(acts, id, lv);
    }
  }

  /** A drill counts as stale at `now` if and only if it has an SLA and its proof cannot be read, or no
      run that proved its headline level started within the SLA. */
  lemma StaleExactly(acts: seq<Action>, d: Drill, readable: bool, maxProofAge: int, now: Time)
    ensures Stale(maxProofAge, LastProven(Reach(acts), d, readable), now) <==>
              maxProofAge > 0
              && (!readable
              || forall id, lv :: HeadlineLevel(d) == Some(lv) && Proves(acts, id, d.name, lv) ==> now - Reach(acts).hist[id].start > maxProofAge)
  {
    if HeadlineLevel(d).Some? {
      ProofIsLatest(acts, d.name, HeadlineLevel(d).value);
    }
  }
}
