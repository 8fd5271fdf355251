/** The Proof SLA: which level it is measured at, when a proof is stale, and which event a run is. */
module Staleness {
  import opened Common
  import opened Levels

  predicate Stale(maxProofAge: int, lastProven: Time, now: Time) {
    maxProofAge > 0 && (lastProven == ZERO_TIME || now - lastProven > maxProofAge)
  }

  function HeadlineLevel(d: Drill): Option<Level> {
    if d.l3 then Some(L3) else if d.l2 then Some(L2) else if d.l1 then Some(L1) else None
  }

  /** The headline is the strongest level a run of the whole drill would execute. */
  lemma HeadlineIsHighest(d: Drill)
    ensures HeadlineLevel(d) == Some(L3) <==> d.l3
    ensures HeadlineLevel(d) == Some(L2) <==> d.l2 && !d.l3
    ensures HeadlineLevel(d) == Some(L1) <==> d.l1 && !d.l2 && !d.l3
    ensures HeadlineLevel(d).None? <==> SelectLevels(d, None) == Some([])
    ensures HeadlineLevel(d).Some? ==>
              var out := SelectLevels(d, None).value;
              out != [] && out[|out| - 1] == HeadlineLevel(d).value && forall lv :: lv in out ==> Rank(lv) <= Rank(HeadlineLevel(d).value)
  {
    SelectLevelsExact(d, None);
    LastIsHighest(d, SelectLevels(d, None).value);
  }

  lemma LastIsHighest(d: Drill, out: seq<Level>)
    requires Ascending(out) && forall lv :: lv in out <==> Wanted(d, None, lv)
    ensures HeadlineLevel(d).None? <==> out == []
    ensures HeadlineLevel(d).Some? ==>
              out != [] && out[|out| - 1] == HeadlineLevel(d).value && forall lv :: lv in out ==> Rank(lv) <= Rank(HeadlineLevel(d).value)
  {
    assert out != [] ==> out[0] in out;
    if HeadlineLevel(d).Some? {
      var top := HeadlineLevel(d).value;
      assert Wanted(d, None, top) && forall lv :: Wanted(d, None, lv) ==> Rank(lv) <= Rank(top);
      var k :| 0 <= k < |out| && out[k] == top;
      assert out[|out| - 1] in out;
    }
  }

  datatype Event = FailEvent | ErrorEvent | RecoverEvent

  function ClassifyRun(prev: Option<Verdict>, current: Verdict, wasStale: bool): Option<Event> {
    match current
    case Fail => Some(FailEvent)
    case Error => Some(ErrorEvent)
    case Pass => if wasStale || prev == Some(Fail) || prev == Some(Error) then Some(RecoverEvent) else None
  }
}
