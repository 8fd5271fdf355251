/** Why a run is no longer executing: every fate but a plain return has its cause in the trace. */
module Fates {
  import opened Store
  import opened RunMachine

  /** Process p is executing run id. */
  predicate Owns(s: Sys, p: nat, id: nat) {
    Known(s, p) && s.procs[p].id == id
  }

  ghost predicate Executing(s: Sys, id: nat) {
    exists p :: Owns(s, p, id)
  }

  /** Action a is what gave run id the fate f in state s. */
  predicate CausedBy(s: Sys, a: Action, id: nat, f: Fate) {
    match f
    case Crashed => a.Crash? && Owns(s, a.p, id)
    case CreateUnheard => a.Begin? && a.ack.Lost? && id == s.db.nextId + a.gap
    case FinalizeFailed => a.Finalize? && a.ack.Failed? && Owns(s, a.p, id) && s.procs[a.p].phase.Aborting?
    case _ => false
  }

  ghost predicate Caused(acts: seq<Action>, id: nat, f: Fate) {
    exists i :: 0 <= i < |acts| && CausedBy(Reach(acts[..i]), acts[i], id, f)
  }

  /** The fate has not moved, and its process, if any, is still there. */
  ghost predicate Unmoved(s: Sys, t: Sys, id: nat) {
    && id in s.hist && id in t.hist && t.hist[id].fate == s.hist[id].fate
    && (t.hist[id].fate.Running? ==> forall p :: Owns(s, p, id) ==> Owns(t, p, id))
  }

  lemma FateStep(s: Sys, a: Action, id: nat)
    requires id in Apply(s, a).hist
    ensures var t := Apply(s, a);
            var f := t.hist[id].fate;
            Unmoved(s, t, id) || f.Returned? || CausedBy(s, a, id, f) || (f.Running? && Executing(t, id))
  {
    var t := Apply(s, a);
    match a
    case Begin(p, drill, only, start, gap, ack) => assert t != s && ack.Acked? && id == s.db.nextId + gap ==> Owns(t, p, id);
    case MarkAbandoned(now, ack) =>
    case PruneRuns(drill, maxAge, maxCount, now, ack) =>
    case ExecLevel(p, resp) =>
    case EvidenceFails(p) =>
    case WriteStep(p, ack) =>
    case Finish(p, end, ack) =>
    case Finalize(p, end, ack) =>
    case Count(p, ack) =>
    case Prove(p, ack) =>
    case Retain(p, ack) =>
    case Panic(p) =>
    case Crash(p) =>
  }

  ghost predicate Explained(acts: seq<Action>, id: nat) {
    var s := Reach(acts);
    id in s.hist ==>
      match s.hist[id].fate
      case Running => Executing(s, id)
      case Returned => true
      case f => Caused(acts, id, f)
  }

  lemma CausedLater(acts: seq<Action>, a: Action, id: nat, f: Fate)
    requires Caused(acts, id, f) || CausedBy(Reach(acts), a, id, f)
    ensures Caused(acts + [a], id, f)
  {
    var all := acts + [a];
    if CausedBy(Reach(acts), a, id, f) {
      assert all[..|acts|] == acts && all[|acts|] == a;
    } else {
      var i :| 0 <= i < |acts| && CausedBy(Reach(acts[..i]), acts[i], id, f);
      assert all[..i] == acts[..i] && all[i] == acts[i];
    }
  }

  lemma {:induction false} FatesExplained(acts: seq<Action>, id: nat)
    ensures Explained(acts, id)
    decreases |acts|
  {
    if acts != [] && id in Reach(acts).hist {
      var before, a := acts[..|acts| - 1], acts[|acts| - 1];
      assert before + [a] == acts;
      FatesExplained(before, id);
      FateStep(Reach(before), a, id);
      var f := Reach(acts).hist[id].fate;
      if !f.Running? && !f.Returned? {
        CausedLater(before, a, id, f);
      }
    }
  }
}
