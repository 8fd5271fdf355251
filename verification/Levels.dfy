/** The level loop of one run: selection, execution, short-circuiting, and the run verdict. */
module Levels {
  import opened Common

  /** The part of a drill's configuration the run loop reads. */
  datatype Drill = Drill(name: string, l1: bool, l2: bool, l3: bool, maxAge: int, maxCount: int)

  /** What the executor answers for one level. */
  datatype Response =
    | Unsupported
    | NoSandbox
    | Broke
    | Answered(status: Verdict, snapshot: string, snapshotTime: Time, bytes: int, files: int)

  /** One level's result; `bytes` is what it adds to the run's restored total. */
  datatype LevelOutcome = LevelOutcome(level: Level, outcome: Outcome, bytes: int)

  /** Cross-level state: the snapshot pin and the restored totals. */
  datatype LevelState = LevelState(pin: string, pinAt: Time, bytes: int, files: int)

  datatype Progress = Progress(done: seq<LevelOutcome>, shortCircuit: bool, reached: Option<Level>, st: LevelState)

  /** A level that has executed but whose step row is not written yet. */
  datatype Pending = Pending(result: LevelOutcome, ran: bool, st: LevelState, files: int)

  const START: Progress := Progress([], false, None, LevelState("", ZERO_TIME, 0, 0))

  predicate Bad(o: LevelOutcome) {
    o.outcome == Ran(Fail) || o.outcome == Ran(Error)
  }

  function PinTo(st: LevelState, snapshot: string, at: Time): LevelState {
    if st.pin == "" && snapshot != "" then st.(pin := snapshot, pinAt := at) else st
  }

  function Execute(p: Progress, lv: Level, resp: Response): Pending {
    if p.shortCircuit then Pending(LevelOutcome(lv, Skipped, 0), false, p.st, 0)
    else
      match resp
      case Unsupported => Pending(LevelOutcome(lv, Skipped, 0), false, p.st, 0)
      case NoSandbox => Pending(LevelOutcome(lv, Skipped, 0), false, p.st, 0)
      case Broke => Pending(LevelOutcome(lv, Ran(Error), 0), true, p.st, 0)
      case Answered(status, snapshot, at, bytes, files) =>
        Pending(LevelOutcome(lv, Ran(status), bytes), true, PinTo(p.st, snapshot, at), files)
  }

  function Commit(p: Progress, q: Pending): Progress {
    Progress(
      p.done + [q.result],
      p.shortCircuit || (q.ran && Bad(q.result)),
      if q.ran then Some(q.result.level) else p.reached,
      q.st.(bytes := q.st.bytes + q.result.bytes, files := q.st.files + q.files))
  }

  /** The loop: one executor response per level, in order. */
  function RunLevels(p: Progress, levels: seq<Level>, resps: seq<Response>): Progress
    requires |resps| == |levels|
    decreases |levels|
  {
    if levels == [] then p
    else RunLevels(Commit(p, Execute(p, levels[0], resps[0])), levels[1..], resps[1..])
  }

  /** The executor as the loop sees it: its answer to a level given the run's pin so far. */
  type Executor = (Level, string, Time) -> Response

  function RunWith(p: Progress, levels: seq<Level>, ask: Executor): Progress
    decreases |levels|
  {
    if levels == [] then p
    else RunWith(Commit(p, Execute(p, levels[0], ask(levels[0], p.st.pin, p.st.pinAt))), levels[1..], ask)
  }

  /** The answers the loop would hear from `ask`. */
  function Answers(p: Progress, levels: seq<Level>, ask: Executor): (r: seq<Response>)
    ensures |r| == |levels|
    decreases |levels|
  {
    if levels == [] then []
    else
      var resp := ask(levels[0], p.st.pin, p.st.pinAt);
      [resp] + Answers(Commit(p, Execute(p, levels[0], resp)), levels[1..], ask)
  }

  lemma {:induction false} RunWithAnswers(p: Progress, levels: seq<Level>, ask: Executor)
    ensures RunWith(p, levels, ask) == RunLevels(p, levels, Answers(p, levels, ask))
    decreases |levels|
  {
    if levels != [] {
      var resp := ask(levels[0], p.st.pin, p.st.pinAt);
      RunWithAnswers(Commit(p, Execute(p, levels[0], resp)), levels[1..], ask);
    }
  }

  function SumBytes(done: seq<LevelOutcome>): int {
    if done == [] then 0 else SumBytes(done[..|done| - 1]) + done[|done| - 1].bytes
  }

  /** A run that executed no level is in error; otherwise its worst outcome counts, fail being worst. */
  function RunVerdict(done: seq<LevelOutcome>): Verdict {
    if forall i :: 0 <= i < |done| ==> done[i].outcome.Skipped? then Error
    else if exists i :: 0 <= i < |done| && done[i].outcome == Ran(Fail) then Fail
    else if exists i :: 0 <= i < |done| && done[i].outcome == Ran(Error) then Error
    else Pass
  }

  method AggregateRun(done: seq<LevelOutcome>) returns (v: Verdict)
    ensures v == RunVerdict(done)
    ensures v == Fail <==> exists i :: 0 <= i < |done| && done[i].outcome == Ran(Fail)
    ensures v == Pass <==>
              && (exists i :: 0 <= i < |done| && done[i].outcome == Ran(Pass))
              && forall i :: 0 <= i < |done| ==> done[i].outcome != Ran(Fail) && done[i].outcome != Ran(Error)
  {
    var ran, fail, errd := false, false, false;
    for k := 0 to |done|
      invariant ran == exists i :: 0 <= i < k && !done[i].outcome.Skipped?
      invariant fail == exists i :: 0 <= i < k && done[i].outcome == Ran(Fail)
      invariant errd == exists i :: 0 <= i < k && done[i].outcome == Ran(Error)
    {
      match done[k].outcome
      case Ran(Pass) => ran := true;
      case Ran(Fail) => ran, fail := true, true;
      case Ran(Error) => ran, errd := true, true;
      case Skipped =>
    }
    v := if !ran then Error else if fail then Fail else if errd then Error else Pass;
  }

  function Configured(d: Drill, lv: Level): bool {
    match lv case L1 => d.l1 case L2 => d.l2 case L3 => d.l3
  }

  function Rank(lv: Level): int {
    match lv case L1 => 1 case L2 => 2 case L3 => 3
  }

  predicate Wanted(d: Drill, only: Option<Level>, lv: Level) {
    Configured(d, lv) && (only.None? || only.value == lv)
  }

  function Pick(d: Drill, only: Option<Level>, all: seq<Level>): seq<Level> {
    if all == [] then []
    else Pick(d, only, all[..|all| - 1]) + if Wanted(d, only, all[|all| - 1]) then [all[|all| - 1]] else []
  }

  /** None is the usage error: the one level asked for is not configured. */
  function SelectLevels(d: Drill, only: Option<Level>): Option<seq<Level>> {
    var out := Pick(d, only, [L1, L2, L3]);
    if only.Some? && out == [] then None else Some(out)
  }

  method SelectLevelsLoop(d: Drill, only: Option<Level>) returns (r: Option<seq<Level>>)
    ensures r == SelectLevels(d, only)
  {
    var all, out := [L1, L2, L3], [];
    for k := 0 to |all|
      invariant out == Pick(d, only, all[..k])
    {
      assert all[..k + 1][..k] == all[..k];
      if Configured(d, all[k]) {
        if only.None? || only.value == all[k] {
          out := out + [all[k]];
        }
      }
    }
    assert all[..|all|] == all;
    r := if only.Some? && out == [] then None else Some(out);
  }

  predicate Ascending(levels: seq<Level>) {
    forall i, j :: 0 <= i < j < |levels| ==> Rank(levels[i]) < Rank(levels[j])
  }

  lemma {:induction false} PickExact(d: Drill, only: Option<Level>, all: seq<Level>)
    requires Ascending(all)
    ensures var out := Pick(d, only, all);
            Ascending(out) && forall lv :: lv in out <==> lv in all && Wanted(d, only, lv)
    decreases |all|
  {
    if all != [] {
      var n := |all| - 1;
      PickExact(d, only, all[..n]);
      assert all == all[..n] + [all[n]];
      forall lv | lv in all[..n] ensures Rank(lv) < Rank(all[n]) {
      }
    }
  }

  lemma AllLevels()
    ensures Ascending([L1, L2, L3]) && forall lv :: lv in [L1, L2, L3]
  {
    forall lv ensures lv in [L1, L2, L3] {
      match lv case L1 => case L2 => case L3 =>
    }
  }

  lemma PickAll(d: Drill, only: Option<Level>, all: seq<Level>)
    requires Ascending(all) && forall lv :: lv in all
    ensures var out := Pick(d, only, all);
            && Ascending(out) && (forall lv :: lv in out <==> Wanted(d, only, lv))
            && (only.Some? ==> (out == [] <==> !Configured(d, only.value)))
  {
    PickExact(d, only, all);
    var out := Pick(d, only, all);
    if only.Some? {
      assert only.value in out <==> Configured(d, only.value);
      assert out != [] ==> out[0] in out && Wanted(d, only, out[0]);
    }
  }

  /** Selection yields exactly the wanted levels, ascending; it is a usage error exactly when one
      level was asked for and the drill does not configure it. */
  lemma SelectLevelsExact(d: Drill, only: Option<Level>)
    ensures SelectLevels(d, only).None? <==> only.Some? && !Configured(d, only.value)
    ensures SelectLevels(d, only).Some? ==>
              var out := SelectLevels(d, only).value;
              Ascending(out) && forall lv :: lv in out <==> Wanted(d, only, lv)
    ensures SelectLevels(d, only).Some? ==>
              var out := SelectLevels(d, only).value;
              && (L1 in out <==> d.l1 && (only.None? || only == Some(L1)))
              && (L2 in out <==> d.l2 && (only.None? || only == Some(L2)))
              && (L3 in out <==> d.l3 && (only.None? || only == Some(L3)))
              && forall i, j :: 0 <= i < j < |out| ==> out[i] != out[j] && out[i] != L3 && out[j] != L1
  {
    AllLevels();
    PickAll(d, only, [L1, L2, L3]);
    AscendingMeans(Pick(d, only, [L1, L2, L3]));
  }

  lemma AscendingMeans(levels: seq<Level>)
    requires Ascending(levels)
    ensures forall i, j :: 0 <= i < j < |levels| ==> levels[i] != levels[j] && levels[i] != L3 && levels[j] != L1
  {
    forall i, j | 0 <= i < j < |levels| ensures levels[i] != levels[j] && levels[i] != L3 && levels[j] != L1 {
      assert Rank(levels[i]) < Rank(levels[j]);
    }
  }

  // ---- short-circuiting ----

  /** Nothing executes after a level that did not pass. */
  ghost predicate Collapsed(done: seq<LevelOutcome>) {
    forall i, j :: 0 <= i < j < |done| && Bad(done[i]) ==> done[j].outcome.Skipped?
  }

  predicate HasBad(done: seq<LevelOutcome>) {
    exists i :: 0 <= i < |done| && Bad(done[i])
  }

  ghost predicate Consistent(p: Progress) {
    && Collapsed(p.done)
    && (p.shortCircuit <==> HasBad(p.done))
    && p.st.bytes == SumBytes(p.done)
    && p.reached == LastRan(p.done).0
  }

  /** Level and verdict of the last level that executed. */
  function LastRan(done: seq<LevelOutcome>): (Option<Level>, Verdict) {
    if done == [] then (None, Error)
    else
      var o := done[|done| - 1];
      if o.outcome.Ran? then (Some(o.level), o.outcome.verdict) else LastRan(done[..|done| - 1])
  }

  lemma HasBadAppend(done: seq<LevelOutcome>, o: LevelOutcome)
    ensures HasBad(done + [o]) <==> HasBad(done) || Bad(o)
  {
    var all := done + [o];
    if HasBad(done) {
      var i :| 0 <= i < |done| && Bad(done[i]);
      assert Bad(all[i]);
    }
    if Bad(o) {
      assert Bad(all[|done|]);
    }
  }

  lemma CollapsedAppend(done: seq<LevelOutcome>, o: LevelOutcome)
    requires Collapsed(done) && (HasBad(done) ==> o.outcome.Skipped?)
    ensures Collapsed(done + [o])
  {
    var all := done + [o];
    forall i, j | 0 <= i < j < |all| && Bad(all[i]) ensures all[j].outcome.Skipped? {
      assert Bad(done[i]);
      if j < |done| {
        assert done[j].outcome.Skipped?;
      }
    }
  }

  lemma FoldsAppend(done: seq<LevelOutcome>, o: LevelOutcome)
    ensures SumBytes(done + [o]) == SumBytes(done) + o.bytes
    ensures LastRan(done + [o]) == if o.outcome.Ran? then (Some(o.level), o.outcome.verdict) else LastRan(done)
  {
    assert (done + [o])[..|done|] == done;
  }

  lemma CommitConsistent(p: Progress, lv: Level, resp: Response)
    requires Consistent(p)
    ensures Consistent(Commit(p, Execute(p, lv, resp)))
  {
    var q := Execute(p, lv, resp);
    HasBadAppend(p.done, q.result);
    CollapsedAppend(p.done, q.result);
    FoldsAppend(p.done, q.result);
  }

  lemma {:induction false} VerdictIsLastRan(done: seq<LevelOutcome>)
    requires Collapsed(done)
    ensures RunVerdict(done) == LastRan(done).1
    ensures RunVerdict(done) == Pass ==> forall i :: 0 <= i < |done| ==> !Bad(done[i])
    decreases |done|
  {
    if done != [] {
      var n := |done| - 1;
      var rest := done[..n];
      VerdictIsLastRan(rest);
      assert forall i :: 0 <= i < n ==> rest[i] == done[i];
      if done[n].outcome.Skipped? {
        assert (forall i :: 0 <= i < n ==> rest[i].outcome.Skipped?) ==> forall i :: 0 <= i < |done| ==> done[i].outcome.Skipped?;
        assert (exists i :: 0 <= i < n && rest[i].outcome == Ran(Fail)) <==> exists i :: 0 <= i < |done| && done[i].outcome == Ran(Fail);
        assert (exists i :: 0 <= i < n && rest[i].outcome == Ran(Error)) <==> exists i :: 0 <= i < |done| && done[i].outcome == Ran(Error);
      } else {
        assert forall i :: 0 <= i < n ==> !Bad(done[i]);
        assert !done[n].outcome.Skipped?;
      }
    }
  }

  lemma {:induction false} RunLevelsConsistent(p: Progress, levels: seq<Level>, resps: seq<Response>)
    requires |resps| == |levels| && Consistent(p)
    ensures Consistent(RunLevels(p, levels, resps))
    decreases |levels|
  {
    if levels != [] {
      CommitConsistent(p, levels[0], resps[0]);
      RunLevelsConsistent(Commit(p, Execute(p, levels[0], resps[0])), levels[1..], resps[1..]);
    }
  }

  function LevelsOf(done: seq<LevelOutcome>): seq<Level> {
    seq(|done|, i requires 0 <= i < |done| => done[i].level)
  }

  /** Each round of the loop adds the outcome of its own level, and nothing else. */
  lemma {:induction false} RunLevelsInOrder(p: Progress, levels: seq<Level>, resps: seq<Response>)
    requires |resps| == |levels|
    ensures LevelsOf(RunLevels(p, levels, resps).done) == LevelsOf(p.done) + levels
    decreases |levels|
  {
    if levels != [] {
      var c := Commit(p, Execute(p, levels[0], resps[0]));
      RunLevelsInOrder(c, levels[1..], resps[1..]);
      assert LevelsOf(c.done) == LevelsOf(p.done) + [levels[0]];
      assert LevelsOf(p.done) + levels == LevelsOf(c.done) + levels[1..];
    }
  }

  lemma {:induction false} LastRanExactly(done: seq<LevelOutcome>)
    ensures forall i :: 0 <= i < |done| && done[i].outcome.Ran? && (forall j :: i < j < |done| ==> done[j].outcome.Skipped?) ==>
              LastRan(done) == (Some(done[i].level), done[i].outcome.verdict)
    ensures (forall i :: 0 <= i < |done| ==> done[i].outcome.Skipped?) ==> LastRan(done) == (None, Error)
    decreases |done|
  {
    if done != [] {
      var n := |done| - 1;
      LastRanExactly(done[..n]);
      assert forall i :: 0 <= i < n ==> done[..n][i] == done[i];
    }
  }

  lemma {:induction false} RunLevelsNext(p: Progress, levels: seq<Level>, resps: seq<Response>, lv: Level, resp: Response)
    requires |resps| == |levels|
    ensures var q := RunLevels(p, levels, resps);
            RunLevels(p, levels + [lv], resps + [resp]) == Commit(q, Execute(q, lv, resp))
    decreases |levels|
  {
    if levels == [] {
      assert levels + [lv] == [lv] && resps + [resp] == [resp];
      assert [lv][1..] == [] && [resp][1..] == [];
    } else {
      assert (levels + [lv])[1..] == levels[1..] + [lv] && (resps + [resp])[1..] == resps[1..] + [resp];
      RunLevelsNext(Commit(p, Execute(p, levels[0], resps[0])), levels[1..], resps[1..], lv, resp);
    }
  }

  /** What one more level adds to a run. Behind a level that failed or erred, on a combination that is
      not supported and without a sandbox it is skipped and changes nothing; when the executor breaks
      it is an error; otherwise it has the executor's verdict, its bytes and files are added, and its
      snapshot becomes the pin if none was set. */
  lemma OneMoreLevel(levels: seq<Level>, resps: seq<Response>, lv: Level, resp: Response)
    requires |resps| == |levels|
    ensures var p, q := RunLevels(START, levels, resps), RunLevels(START, levels + [lv], resps + [resp]);
            var stopped := exists i :: 0 <= i < |p.done| && (p.done[i].outcome == Ran(Fail) || p.done[i].outcome == Ran(Error));
            && (stopped || resp == Unsupported || resp == NoSandbox ==>
                  q.done == p.done + [LevelOutcome(lv, Skipped, 0)] && q.reached == p.reached && q.st == p.st)
            && (!stopped && resp == Broke ==>
                  q.done == p.done + [LevelOutcome(lv, Ran(Error), 0)] && q.reached == Some(lv) && q.st == p.st)
            && (!stopped && resp.Answered? ==>
                  && q.done == p.done + [LevelOutcome(lv, Ran(resp.status), resp.bytes)] && q.reached == Some(lv)
                  && q.st.bytes == p.st.bytes + resp.bytes && q.st.files == p.st.files + resp.files
                  && (q.st.pin, q.st.pinAt) == if p.st.pin == "" && resp.snapshot != "" then (resp.snapshot, resp.snapshotTime) else (p.st.pin, p.st.pinAt))
  {
    RunLevelsNext(START, levels, resps, lv, resp);
    RunLevelsConsistent(START, levels, resps);
  }

  /** Level i executed and every later one was skipped. */
  predicate LastExecuted(done: seq<LevelOutcome>, i: nat) {
    i < |done| && done[i].outcome.Ran? && forall j :: i < j < |done| ==> done[j].outcome.Skipped?
  }

  predicate NoneExecuted(done: seq<LevelOutcome>) {
    forall i :: 0 <= i < |done| ==> done[i].outcome.Skipped?
  }

  lemma CollapsedFacts(done: seq<LevelOutcome>)
    requires Collapsed(done)
    ensures forall i, j :: 0 <= i < |done| && 0 <= j < |done| && Bad(done[i]) && Bad(done[j]) ==> i == j
    ensures forall i, j :: 0 <= i < j < |done| && Bad(done[i]) ==> done[j].outcome.Skipped?
  {
  }

  lemma LastRanMeans(done: seq<LevelOutcome>, i: nat)
    ensures LastExecuted(done, i) ==> LastRan(done) == (Some(done[i].level), done[i].outcome.verdict)
    ensures NoneExecuted(done) ==> LastRan(done) == (None, Error)
  {
    LastRanExactly(done);
  }

  /** For every sequence of executor answers: one outcome per selected level in order, at most one
      of them bad, everything after it skipped, and the run verdict is the verdict of the last
      level that executed (error if none did), which is also the level the run records. */
  lemma ShortCircuitCollapse(levels: seq<Level>, resps: seq<Response>)
    requires |resps| == |levels|
    ensures var r := RunLevels(START, levels, resps);
            && |r.done| == |levels|
            && LevelsOf(r.done) == levels
            && (forall i, j :: 0 <= i < |r.done| && 0 <= j < |r.done| && Bad(r.done[i]) && Bad(r.done[j]) ==> i == j)
            && (forall i, j :: 0 <= i < j < |r.done| && Bad(r.done[i]) ==> r.done[j].outcome.Skipped?)
            && (forall i: nat :: LastExecuted(r.done, i) ==> r.reached == Some(r.done[i].level) && RunVerdict(r.done) == r.done[i].outcome.verdict)
            && (NoneExecuted(r.done) ==> r.reached == None && RunVerdict(r.done) == Error)
            && (r.reached, RunVerdict(r.done)) == LastRan(r.done)
            && r.st.bytes == SumBytes(r.done)
  {
    assert Consistent(START);
    RunLevelsConsistent(START, levels, resps);
    RunLevelsInOrder(START, levels, resps);
    assert LevelsOf(START.done) == [];
    var r := RunLevels(START, levels, resps);
    assert |LevelsOf(r.done)| == |r.done|;
    CollapsedFacts(r.done);
    VerdictIsLastRan(r.done);
    LastRanMeans(r.done, 0);
    forall i: nat | LastExecuted(r.done, i) ensures r.reached == Some(r.done[i].level) && RunVerdict(r.done) == r.done[i].outcome.verdict {
      LastRanMeans(r.done, i);
    }
  }
}
