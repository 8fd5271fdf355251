/**
 One backup per run, for dump directories. The directory may change in any way between two levels;
 a level itself sees one state of it.
 */
module Pinning {
  import opened Common
  import opened Levels
  import opened Snapshots

  /** What os.Stat sees: the file at the end of any symbolic link. */
  datatype Target = Target(mtime: Time, isDir: bool)

  /** A directory entry. A link has a time of its own, and points at something or dangles. */
  datatype Entry = Plain(self: Target) | Link(own: Time, points: Option<Target>)

  /** The directory, the names its pattern matches, and its listing. */
  datatype Dir = Dir(entries: map<string, Entry>, matching: set<string>, listing: seq<Snapshot>)

  datatype Pick = PickNewest | AllMatchingWindow

  /** What one level meets: the directory, and how everything that is not about choosing files turns
      out. `verdict` is the level's aggregate once its checks have run. */
  datatype World = World(
    dir: Dir,
    readable: bool,
    listable: bool,
    scratchOk: bool,
    copyOk: bool,
    sandbox: bool,
    verdict: Verdict,
    bytes: int,
    count: int)

  /** The entry's own time: the link's, not that of what it points at. */
  function OwnTime(e: Entry): Time {
    match e case Plain(self) => self.mtime case Link(own, _) => own
  }

  function Stat(d: Dir, name: string): Option<Target> {
    if name !in d.entries then None
    else match d.entries[name] case Plain(self) => Some(self) case Link(_, points) => points
  }

  /** ListSnapshots leaves directories out, but not links to them. */
  predicate Listed(d: Dir, id: string) {
    id in d.matching && id in d.entries && !(d.entries[id].Plain? && d.entries[id].self.isDir)
  }

  /** `listing` is what ListSnapshots returns: the matching entries, newest first by their own times. */
  ghost predicate DirOk(d: Dir) {
    && (forall i :: 0 <= i < |d.listing| ==>
          var s := d.listing[i];
          s.id != "" && Listed(d, s.id) && s.time == OwnTime(d.entries[s.id]))
    && (forall id :: Listed(d, id) ==> exists i :: 0 <= i < |d.listing| && d.listing[i].id == id)
    && Descending(d.listing)
  }

  const INVALID_ID := "invalid-snapshot-id"

  predicate ValidID(id: string) {
    id != "" && id != "." && id != ".." && forall i :: 0 <= i < |id| ==> id[i] != '/' && id[i] != '\\'
  }

  /** The name inside the directory that Path(id) points at. */
  function Resolve(id: string): string {
    if ValidID(id) then id else INVALID_ID
  }

  /** A level's answer, and the files (with the mtimes of their content) it judged. */
  datatype Step = Step(resp: Response, audited: seq<(string, Time)>)

  function ErrorStep(snapshot: string, at: Time): Step {
    Step(Answered(Error, snapshot, at, 0, 0), [])
  }

  /** The pinned file vanished or is not the one that was audited. A zero pin time disarms the guard. */
  predicate PinRefused(d: Dir, name: string, pinAt: Time) {
    Stat(d, name).None? || (pinAt != ZERO_TIME && Stat(d, name).value.mtime != pinAt)
  }

  function Selected(d: Dir, pick: Pick): seq<string> {
    if d.listing == [] then []
    else if pick.AllMatchingWindow? then seq(|d.listing|, i requires 0 <= i < |d.listing| => d.listing[i].id)
    else [d.listing[0].id]
  }

  /** The content behind the names, where there is any. */
  function Judged(d: Dir, names: seq<string>): seq<(string, Time)> {
    if names == [] then []
    else
      Judged(d, names[..|names| - 1])
      + match Stat(d, names[|names| - 1]) case Some(t) => [(names[|names| - 1], t.mtime)] case None => []
  }

  function Resolved(ids: seq<string>): seq<string> {
    seq(|ids|, i requires 0 <= i < |ids| => Resolve(ids[i]))
  }

  predicate AllReadable(d: Dir, names: seq<string>) {
    forall i :: 0 <= i < |names| ==> Stat(d, names[i]).Some?
  }

  /** A check on a file that is not there is an error; one on another file of the window may still fail. */
  function VerdictOn(w: World, names: seq<string>): Verdict {
    if AllReadable(w.dir, names) then w.verdict
    else if w.verdict == Fail && exists i :: 0 <= i < |names| && Stat(w.dir, names[i]).Some? then Fail
    else Error
  }

  function RunDumpdirL1(w: World, pick: Pick): Step {
    if !w.readable || !w.listable || w.dir.listing == [] then ErrorStep("", ZERO_TIME)
    else
      var names := Resolved(Selected(w.dir, pick));
      Step(Answered(VerdictOn(w, names), w.dir.listing[0].id, w.dir.listing[0].time, 0, 0), Judged(w.dir, names))
  }

  /** A name that can be opened and copied. */
  predicate Copyable(d: Dir, name: string) {
    Stat(d, name).Some? && !Stat(d, name).value.isDir
  }

  /** Scratch, preflight and copy; then the checks over the copies. */
  function RestoreAndCheck(w: World, ids: seq<string>, snapshot: string, at: Time): Step {
    if !w.scratchOk then ErrorStep(snapshot, at)
    else if exists i :: 0 <= i < |ids| && !ValidID(ids[i]) then ErrorStep(snapshot, at)
    else if !w.copyOk || exists i :: 0 <= i < |ids| && !Copyable(w.dir, ids[i]) then ErrorStep(snapshot, at)
    else Step(Answered(w.verdict, snapshot, at, w.bytes, w.count), Judged(w.dir, ids))
  }

  function RunDumpdirL2(w: World, pick: Pick, pin: string, pinAt: Time): Step {
    if !w.readable then ErrorStep("", ZERO_TIME)
    else if pin != "" && pick.PickNewest? then
      if PinRefused(w.dir, Resolve(pin), pinAt) then ErrorStep("", ZERO_TIME)
      else RestoreAndCheck(w, [pin], pin, ZERO_TIME)
    else if !w.listable || w.dir.listing == [] then ErrorStep("", ZERO_TIME)
    else RestoreAndCheck(w, Selected(w.dir, pick), w.dir.listing[0].id, w.dir.listing[0].time)
  }

  function StageAndLoad(w: World, id: string, at: Time): Step {
    if !w.scratchOk then ErrorStep(id, at)
    else if !w.copyOk || !Copyable(w.dir, Resolve(id)) then ErrorStep(id, at)
    else Step(Answered(w.verdict, id, at, 0, 0), Judged(w.dir, [Resolve(id)]))
  }

  function RunDumpdirL3(w: World, pin: string, pinAt: Time): Step {
    if !w.sandbox then Step(NoSandbox, [])
    else if !w.readable then ErrorStep("", ZERO_TIME)
    else if pin != "" then
      if PinRefused(w.dir, Resolve(pin), pinAt) then ErrorStep("", ZERO_TIME) else StageAndLoad(w, pin, ZERO_TIME)
    else if !w.listable || w.dir.listing == [] then ErrorStep("", ZERO_TIME)
    else StageAndLoad(w, w.dir.listing[0].id, w.dir.listing[0].time)
  }

  function RunStep(w: World, pick: Pick, lv: Level, pin: string, pinAt: Time): Step {
    match lv
    case L1 => RunDumpdirL1(w, pick)
    case L2 => RunDumpdirL2(w, pick, pin, pinAt)
    case L3 => RunDumpdirL3(w, pin, pinAt)
  }

  /** A level runner, and the dump directory one whose levels meet the given worlds. */
  type Runner = (Level, string, Time) -> Step

  function Dumpdir(worlds: Level -> World, pick: Pick): Runner {
    (lv, pin, pinAt) => RunStep(worlds(lv), pick, lv, pin, pinAt)
  }

  function AnswerOf(run: Runner): Executor {
    (lv, pin, pinAt) => run(lv, pin, pinAt).resp
  }

  function After(p: Progress, lv: Level, run: Runner): Progress {
    Commit(p, Execute(p, lv, run(lv, p.st.pin, p.st.pinAt).resp))
  }

  /** The files a level judges; nothing for a level that is skipped. */
  function Seen(p: Progress, lv: Level, run: Runner): seq<(string, Time)> {
    if p.shortCircuit then [] else run(lv, p.st.pin, p.st.pinAt).audited
  }

  /** Per level of the run, the files it judged. */
  function Trail(p: Progress, levels: seq<Level>, run: Runner): (r: seq<seq<(string, Time)>>)
    ensures |r| == |levels|
    decreases |levels|
  {
    if levels == [] then [] else [Seen(p, levels[0], run)] + Trail(After(p, levels[0], run), levels[1..], run)
  }

  predicate Executed(o: Outcome) {
    o == Ran(Pass) || o == Ran(Fail)
  }

  predicate EndsWithoutError(s: Step) {
    s.resp.Answered? && s.resp.status != Error
  }

  // ---- one pinned level ----

  /** The pin names its file and carries a time the guard compares. */
  predicate PinGuarded(pin: string, pinAt: Time) {
    ValidID(pin) && pinAt != ZERO_TIME
  }

  /** The level judged the pinned file and nothing else. */
  predicate Faithful(s: Step, pin: string, pinAt: Time) {
    EndsWithoutError(s) ==> s.audited == [(pin, pinAt)]
  }

  lemma JudgedOne(d: Dir, name: string)
    requires Stat(d, name).Some?
    ensures Judged(d, [name]) == [(name, Stat(d, name).value.mtime)]
  {
    assert [name][..0] == [] && Judged(d, []) == [];
  }

  lemma PinnedFaithful(w: World, lv: Level, pin: string, pinAt: Time)
    requires PinGuarded(pin, pinAt) && lv != L1
    ensures Faithful(RunStep(w, PickNewest, lv, pin, pinAt), pin, pinAt)
  {
    if Stat(w.dir, pin).Some? {
      JudgedOne(w.dir, pin);
    }
  }

  /** The guard on the pin is exactly what later levels need: when the name is not a plain base name
      or the pinned mtime is the zero time, some later directory makes a level judge another file. */
  lemma PinGuardExact(pin: string, pinAt: Time)
    requires pin != ""
    ensures PinGuarded(pin, pinAt) <==>
              forall w: World, lv: Level :: DirOk(w.dir) && lv != L1 ==> Faithful(RunStep(w, PickNewest, lv, pin, pinAt), pin, pinAt)
  {
    if PinGuarded(pin, pinAt) {
      forall w: World, lv: Level | DirOk(w.dir) && lv != L1 ensures Faithful(RunStep(w, PickNewest, lv, pin, pinAt), pin, pinAt) {
        PinnedFaithful(w, lv, pin, pinAt);
      }
    } else {
      // another file under the resolved name, or a rewritten file behind a disarmed guard
      var other := if pinAt == ZERO_TIME then ZERO_TIME + 1 else pinAt;
      var w := Smooth(Only(Resolve(pin), other));
      JudgedOne(w.dir, Resolve(pin));
      if !ValidID(pin) && pinAt != ZERO_TIME {
        assert ValidID(INVALID_ID);
        assert Resolve(pin) != pin;
      }
      assert !Faithful(RunStep(w, PickNewest, L3, pin, pinAt), pin, pinAt);
    }
  }

  /** A directory with one file that the pattern does not match. */
  function Only(name: string, mtime: Time): (d: Dir)
    ensures DirOk(d)
  {
    Dir(map[name := Plain(Target(mtime, false))], {}, [])
  }

  /** Everything but the directory goes well. */
  function Smooth(d: Dir): World {
    World(d, true, true, true, true, true, Pass, 0, 0)
  }

  // ---- the level that pins ----

  /** The newest listed dump can be pinned: it has a plain base name and a non-zero time that is also
      the time of its content; or there is nothing behind it, and no level can judge it. */
  predicate SafeToPin(d: Dir) {
    d.listing == []
    || (var s := d.listing[0];
        var t := Stat(d, Resolve(s.id));
        t.None? || (PinGuarded(s.id, s.time) && t.value.mtime == s.time))
  }

  lemma PlainIsSafe(d: Dir)
    requires DirOk(d) && d.listing != []
    requires d.entries[d.listing[0].id].Plain? && PinGuarded(d.listing[0].id, d.listing[0].time)
    ensures SafeToPin(d)
  {
  }

  /** Unpinned, the level ends in error or pins what it judged, with a guarded pin. */
  predicate PinsWhatItJudges(s: Step) {
    EndsWithoutError(s) ==> PinGuarded(s.resp.snapshot, s.resp.snapshotTime) && s.audited == [(s.resp.snapshot, s.resp.snapshotTime)]
  }

  lemma PinningFaithful(w: World, lv: Level)
    requires DirOk(w.dir) && SafeToPin(w.dir)
    ensures PinsWhatItJudges(RunStep(w, PickNewest, lv, "", ZERO_TIME))
  {
    if w.dir.listing != [] {
      var name := Resolve(w.dir.listing[0].id);
      assert Resolved(Selected(w.dir, PickNewest)) == [name];
      if Stat(w.dir, name).Some? {
        JudgedOne(w.dir, name);
      } else {
        assert !Copyable(w.dir, name) && VerdictOn(w, [name]) == Error by {
          assert Stat(w.dir, [name][0]).None?;
        }
        assert Selected(w.dir, PickNewest)[0] == w.dir.listing[0].id;
      }
    }
  }

  /** Unpinned, whatever a level reports as its snapshot is a listed entry at its own time, and none
      that the pattern matches is newer. */
  lemma UnpinnedIsNewest(w: World, pick: Pick, lv: Level)
    requires DirOk(w.dir)
    ensures var resp := RunStep(w, pick, lv, "", ZERO_TIME).resp;
            var d := w.dir;
            if !resp.Answered? || resp.snapshot == "" then true
            else
              && Listed(d, resp.snapshot) && resp.snapshotTime == OwnTime(d.entries[resp.snapshot])
              && forall id :: id in d.matching && id in d.entries && (d.entries[id].Plain? ==> !d.entries[id].self.isDir) ==>
                   OwnTime(d.entries[id]) <= resp.snapshotTime
  {
    if w.dir.listing != [] {
      var s := w.dir.listing[0];
      forall id | Listed(w.dir, id) ensures OwnTime(w.dir.entries[id]) <= s.time {
        var i :| 0 <= i < |w.dir.listing| && w.dir.listing[i].id == id;
      }
    }
  }

  /** Everything around the directory works. */
  predicate Works(w: World) {
    w.readable && w.listable && w.scratchOk && w.copyOk && w.sandbox
  }

  /** Where something does not work, the level says so: L3 is left out without a sandbox; and an
      unreadable directory, a listing that is needed and fails or is empty, and for L2 and L3 a
      scratch space or a copy that fails, are errors that judge nothing. */
  lemma BrokenLevelErrs(w: World, pick: Pick, lv: Level, pin: string, pinAt: Time)
    ensures var s := RunStep(w, pick, lv, pin, pinAt);
            var listed := lv == L1 || pin == "" || (lv == L2 && pick == AllMatchingWindow);
            if lv == L3 && !w.sandbox then s == Step(NoSandbox, [])
            else !w.readable || (listed && (!w.listable || w.dir.listing == [])) || (lv != L1 && (!w.scratchOk || !w.copyOk)) ==>
                   s.resp.Answered? && s.resp.status == Error && s.audited == []
  {
  }

  /** Unpinned, where everything works and the newest dump is a plain file with a base name, every
      level answers with its checks' verdict on that dump and pins it. */
  lemma WorkingLevelAnswers(w: World, lv: Level)
    requires DirOk(w.dir) && Works(w) && w.dir.listing != []
    requires ValidID(w.dir.listing[0].id) && w.dir.entries[w.dir.listing[0].id].Plain?
    ensures var s := w.dir.listing[0];
            RunStep(w, PickNewest, lv, "", ZERO_TIME) ==
              Step(Answered(w.verdict, s.id, s.time, if lv == L2 then w.bytes else 0, if lv == L2 then w.count else 0), [(s.id, s.time)])
  {
    var s := w.dir.listing[0];
    assert Listed(w.dir, s.id);
    assert Selected(w.dir, PickNewest) == [s.id] && Resolved([s.id]) == [s.id];
    JudgedOne(w.dir, s.id);
  }

  /** Pinned, where everything works, L2 and L3 answer with their checks' verdict on the pinned file
      exactly when it can be read and copied and its mtime is the pinned one, if that is not zero. */
  lemma WorkingPinnedAnswers(w: World, lv: Level, pin: string, pinAt: Time)
    requires Works(w) && ValidID(pin) && lv != L1
    ensures var t := Stat(w.dir, pin);
            var s := RunStep(w, PickNewest, lv, pin, pinAt);
            if t.Some? && !t.value.isDir && (pinAt == ZERO_TIME || t.value.mtime == pinAt)
            then s == Step(Answered(w.verdict, pin, ZERO_TIME, if lv == L2 then w.bytes else 0, if lv == L2 then w.count else 0), [(pin, t.value.mtime)])
            else s.resp.Answered? && s.resp.status == Error && s.audited == []
  {
    if Stat(w.dir, pin).Some? {
      JudgedOne(w.dir, pin);
    }
  }

  /** An unchanged directory: the guard refuses the pin exactly when the newest dump is a link that
      dangles or whose own time, if not zero, is not that of its content. A plain file is never refused. */
  lemma UnchangedRefusedExactly(d: Dir)
    requires DirOk(d) && d.listing != [] && ValidID(d.listing[0].id)
    ensures var s := d.listing[0];
            PinRefused(d, Resolve(s.id), s.time) <==>
              match d.entries[s.id]
              case Plain(_) => false
              case Link(own, points) => points.None? || (own != ZERO_TIME && points.value.mtime != own)
  {
    var s := d.listing[0];
    assert Listed(d, s.id);
  }

  // ---- the run ----

  lemma {:induction false} PinKept(p: Progress, levels: seq<Level>, ask: Executor)
    requires p.st.pin != ""
    ensures var r := RunWith(p, levels, ask); r.st.pin == p.st.pin && r.st.pinAt == p.st.pinAt
    decreases |levels|
  {
    if levels != [] {
      PinKept(Commit(p, Execute(p, levels[0], ask(levels[0], p.st.pin, p.st.pinAt))), levels[1..], ask);
    }
  }

  /** Every level that ended pass or fail judged exactly the pin. */
  ghost predicate JudgedPin(p: Progress, trail: seq<seq<(string, Time)>>) {
    && |trail| == |p.done|
    && forall i :: 0 <= i < |p.done| && Executed(p.done[i].outcome) ==> p.st.pin != "" && trail[i] == [(p.st.pin, p.st.pinAt)]
  }

  /** The loop from here on judges the pin or nothing. */
  ghost predicate Settled(p: Progress, trail: seq<seq<(string, Time)>>) {
    JudgedPin(p, trail) && (p.shortCircuit || PinGuarded(p.st.pin, p.st.pinAt))
  }

  /** A runner that judges what is pinned, and leaves out no level but the last. */
  ghost predicate Sound(run: Runner) {
    && (forall lv, pin, pinAt :: lv != L1 && PinGuarded(pin, pinAt) ==> Faithful(run(lv, pin, pinAt), pin, pinAt))
    && (forall lv, pin, pinAt :: run(lv, pin, pinAt).resp.Unsupported? || run(lv, pin, pinAt).resp.NoSandbox? ==> lv == L3)
  }

  lemma Unfold(p: Progress, levels: seq<Level>, run: Runner, trail: seq<seq<(string, Time)>>)
    requires levels != []
    ensures RunWith(p, levels, AnswerOf(run)) == RunWith(After(p, levels[0], run), levels[1..], AnswerOf(run))
    ensures trail + Trail(p, levels, run) == (trail + [Seen(p, levels[0], run)]) + Trail(After(p, levels[0], run), levels[1..], run)
  {
    var rest := Trail(After(p, levels[0], run), levels[1..], run);
    assert trail + ([Seen(p, levels[0], run)] + rest) == (trail + [Seen(p, levels[0], run)]) + rest;
  }

  lemma PinnedLevel(p: Progress, lv: Level, run: Runner, trail: seq<seq<(string, Time)>>)
    requires Settled(p, trail) && lv != L1 && Sound(run)
    ensures Settled(After(p, lv, run), trail + [Seen(p, lv, run)])
  {
    if !p.shortCircuit {
      assert Faithful(run(lv, p.st.pin, p.st.pinAt), p.st.pin, p.st.pinAt);
    }
  }

  lemma {:induction false} PinnedRun(p: Progress, levels: seq<Level>, run: Runner, trail: seq<seq<(string, Time)>>)
    requires Settled(p, trail) && L1 !in levels && Sound(run)
    ensures Settled(RunWith(p, levels, AnswerOf(run)), trail + Trail(p, levels, run))
    decreases |levels|
  {
    if levels == [] {
      assert trail + Trail(p, levels, run) == trail;
    } else {
      Unfold(p, levels, run, trail);
      PinnedLevel(p, levels[0], run, trail);
      PinnedRun(After(p, levels[0], run), levels[1..], run, trail + [Seen(p, levels[0], run)]);
    }
  }

  /** The first level settles the run, unless it is the last one and is left out. */
  lemma FirstLevel(lv: Level, run: Runner)
    requires Sound(run) && PinsWhatItJudges(run(lv, "", ZERO_TIME))
    ensures JudgedPin(After(START, lv, run), [Seen(START, lv, run)])
    ensures lv != L3 ==> Settled(After(START, lv, run), [Seen(START, lv, run)])
  {
    var s := run(lv, "", ZERO_TIME);
    assert s.resp.Unsupported? || s.resp.NoSandbox? ==> lv == L3;
  }

  /** Over any sound runner whose first level pins what it judges, the run judges its pin only. */
  lemma RunFaithful(levels: seq<Level>, run: Runner)
    requires Ascending(levels) && Sound(run) && (levels != [] ==> PinsWhatItJudges(run(levels[0], "", ZERO_TIME)))
    ensures JudgedPin(RunWith(START, levels, AnswerOf(run)), Trail(START, levels, run))
  {
    if levels != [] {
      var q := After(START, levels[0], run);
      var seen := [Seen(START, levels[0], run)];
      FirstLevel(levels[0], run);
      if levels[1..] == [] {
        assert Trail(START, levels, run) == seen;
      } else {
        assert Rank(levels[0]) < Rank(levels[1]);
        assert L1 !in levels[1..];
        PinnedRun(q, levels[1..], run, seen);
      }
    }
  }

  /** Whatever the directory does, the dump directory runner judges what is pinned. */
  lemma DumpdirSound(worlds: Level -> World)
    ensures Sound(Dumpdir(worlds, PickNewest))
  {
    forall lv, pin, pinAt | lv != L1 && PinGuarded(pin, pinAt) ensures Faithful(Dumpdir(worlds, PickNewest)(lv, pin, pinAt), pin, pinAt) {
      PinnedFaithful(worlds(lv), lv, pin, pinAt);
    }
    forall lv, pin, pinAt
      ensures var resp := Dumpdir(worlds, PickNewest)(lv, pin, pinAt).resp; resp.Unsupported? || resp.NoSandbox? ==> lv == L3
    {
      OnlyL3Skips(worlds(lv), lv, pin, pinAt);
    }
  }

  lemma OnlyL3Skips(w: World, lv: Level, pin: string, pinAt: Time)
    ensures var resp := RunStep(w, PickNewest, lv, pin, pinAt).resp; resp.Unsupported? || resp.NoSandbox? ==> lv == L3
  {
    match lv case L1 => case L2 => case L3 =>
  }

  ghost predicate OneBackup(levels: seq<Level>, worlds: Level -> World) {
    var run := Dumpdir(worlds, PickNewest);
    JudgedPin(RunWith(START, levels, AnswerOf(run)), Trail(START, levels, run))
  }

  /** The run starts on directory d, which may then change in any way. */
  ghost predicate StartsOn(levels: seq<Level>, worlds: Level -> World, d: Dir) {
    Ascending(levels) && levels != [] && worlds(levels[0]).dir == d && forall lv :: DirOk(worlds(lv).dir)
  }

  /** For pick newest, whatever happens to the directory between levels: if the newest dump the first
      level finds is safe to pin, every level that ends pass or fail judges exactly the pinned name
      at the pinned mtime. */
  lemma OneBackupPerRun(levels: seq<Level>, worlds: Level -> World, d: Dir)
    requires StartsOn(levels, worlds, d) && SafeToPin(d)
    ensures OneBackup(levels, worlds)
  {
    DumpdirSound(worlds);
    PinningFaithful(worlds(levels[0]), levels[0]);
    RunFaithful(levels, Dumpdir(worlds, PickNewest));
  }

  lemma OneLevel(run: Runner, a: Level)
    ensures RunWith(START, [a], AnswerOf(run)) == After(START, a, run) && Trail(START, [a], run) == [Seen(START, a, run)]
  {
    Unfold(START, [a], run, []);
  }

  lemma TwoLevels(run: Runner, a: Level, b: Level)
    ensures var q := After(START, a, run);
            RunWith(START, [a, b], AnswerOf(run)) == After(q, b, run) && Trail(START, [a, b], run) == [Seen(START, a, run), Seen(q, b, run)]
  {
    assert [a, b][1..] == [b] && [b][1..] == [];
    Unfold(START, [a, b], run, []);
    Unfold(After(START, a, run), [b], run, []);
  }

  /** What L1 answers on a directory whose newest dump can be read. */
  lemma AuditedByL1(d: Dir)
    requires d.listing != [] && Stat(d, Resolve(d.listing[0].id)).Some?
    ensures var s := d.listing[0];
            var name := Resolve(s.id);
            RunStep(Smooth(d), PickNewest, L1, "", ZERO_TIME) == Step(Answered(Pass, s.id, s.time, 0, 0), [(name, Stat(d, name).value.mtime)])
  {
    var name := Resolve(d.listing[0].id);
    assert Resolved(Selected(d, PickNewest)) == [name];
    JudgedOne(d, name);
  }

  /** A rewritten dump behind a disarmed guard. */
  lemma RewrittenPasses(id: string)
    requires ValidID(id)
    ensures RunStep(Smooth(Only(id, ZERO_TIME + 1)), PickNewest, L2, id, ZERO_TIME) == Step(Answered(Pass, id, ZERO_TIME, 0, 0), [(id, ZERO_TIME + 1)])
  {
    JudgedOne(Only(id, ZERO_TIME + 1), id);
  }

  /** L1 judges other content than it pins. */
  lemma SplitsAtOnce(d: Dir) returns (levels: seq<Level>, worlds: Level -> World)
    requires DirOk(d) && d.listing != [] && Stat(d, Resolve(d.listing[0].id)).Some?
    requires (Resolve(d.listing[0].id), Stat(d, Resolve(d.listing[0].id)).value.mtime) != (d.listing[0].id, d.listing[0].time)
    ensures StartsOn(levels, worlds, d) && !OneBackup(levels, worlds)
  {
    var w := Smooth(d);
    worlds := lv => w;
    levels := [L1];
    var run := Dumpdir(worlds, PickNewest);
    AuditedByL1(d);
    assert run(L1, "", ZERO_TIME) == RunStep(w, PickNewest, L1, "", ZERO_TIME);
    OneLevel(run, L1);
    AfterFirst(run, L1, Pass);
  }

  /** A dump rewritten behind L1 passes the disarmed guard at L2. */
  lemma SplitsLater(d: Dir) returns (levels: seq<Level>, worlds: Level -> World)
    requires DirOk(d) && d.listing != [] && ValidID(d.listing[0].id) && d.listing[0].time == ZERO_TIME
    requires Stat(d, d.listing[0].id).Some? && Stat(d, d.listing[0].id).value.mtime == ZERO_TIME
    ensures StartsOn(levels, worlds, d) && !OneBackup(levels, worlds)
  {
    var id := d.listing[0].id;
    var first, later := Smooth(d), Smooth(Only(id, ZERO_TIME + 1));
    worlds := lv => if lv == L1 then first else later;
    levels := [L1, L2];
    var run := Dumpdir(worlds, PickNewest);
    AuditedByL1(d);
    assert run(L1, "", ZERO_TIME) == RunStep(first, PickNewest, L1, "", ZERO_TIME);
    AfterFirst(run, L1, Pass);
    var q := After(START, L1, run);
    TwoLevels(run, L1, L2);
    RewrittenPasses(id);
    assert run(L2, id, ZERO_TIME) == RunStep(later, PickNewest, L2, id, ZERO_TIME);
    assert Seen(q, L2, run) == [(id, ZERO_TIME + 1)];
    assert After(q, L2, run).done[1].outcome == Ran(Pass);
  }

  /** A dump that is not safe to pin splits some run: L1 judges other content than it pins, or a
      rewritten file passes the disarmed guard at L2. */
  lemma UnsafeSplits(d: Dir) returns (levels: seq<Level>, worlds: Level -> World)
    requires DirOk(d) && !SafeToPin(d)
    ensures StartsOn(levels, worlds, d) && !OneBackup(levels, worlds)
  {
    var s := d.listing[0];
    if ValidID(s.id) && Stat(d, s.id).value.mtime == s.time {
      levels, worlds := SplitsLater(d);
    } else {
      assert ValidID(INVALID_ID);
      levels, worlds := SplitsAtOnce(d);
    }
  }

  /** The condition is exact: every run that starts on the directory audits one backup if and only if
      the newest dump it lists is safe to pin. */
  lemma OneBackupExactly(d: Dir)
    requires DirOk(d)
    ensures SafeToPin(d) <==> forall levels, worlds :: StartsOn(levels, worlds, d) ==> OneBackup(levels, worlds)
  {
    if SafeToPin(d) {
      forall levels, worlds | StartsOn(levels, worlds, d) ensures OneBackup(levels, worlds) {
        OneBackupPerRun(levels, worlds, d);
      }
    } else {
      var levels, worlds := UnsafeSplits(d);
    }
  }

  // ---- all-matching-window ----

  function Window(d: Dir): seq<string> {
    Resolved(Selected(d, AllMatchingWindow))
  }

  ghost predicate OneBackupInWindow(levels: seq<Level>, worlds: Level -> World) {
    var run := Dumpdir(worlds, AllMatchingWindow);
    JudgedPin(RunWith(START, levels, AnswerOf(run)), Trail(START, levels, run))
  }

  /** Nothing is listed; or some listed dump cannot be read, which stops L1 and L2, and what can be
      read is at most the newest one, at its listed time. */
  predicate WindowSafe(d: Dir) {
    d.listing == []
    || (!AllReadable(d, Window(d)) && (Judged(d, Window(d)) == [] || Judged(d, Window(d)) == [(d.listing[0].id, d.listing[0].time)]))
  }

  lemma {:induction false} JudgedMember(d: Dir, names: seq<string>, i: nat)
    requires i < |names| && Stat(d, names[i]).Some?
    ensures (names[i], Stat(d, names[i]).value.mtime) in Judged(d, names)
    decreases |names|
  {
    var n := |names| - 1;
    if i < n {
      JudgedMember(d, names[..n], i);
    }
  }

  lemma {:induction false} SomeReadable(d: Dir, names: seq<string>)
    requires Judged(d, names) != []
    ensures exists i :: 0 <= i < |names| && Stat(d, names[i]).Some?
    decreases |names|
  {
    var n := |names| - 1;
    if Stat(d, names[n]).None? {
      SomeReadable(d, names[..n]);
      var i :| 0 <= i < n && Stat(d, names[..n][i]).Some?;
      assert Stat(d, names[i]).Some?;
    }
  }

  /** In a safe window the first level judges its pin, if anything, and no other level follows. */
  lemma WindowFirstLevel(w: World, lv: Level)
    requires WindowSafe(w.dir)
    requires w.dir.listing != [] ==> w.dir.listing[0].id != ""
    ensures var s := RunStep(w, AllMatchingWindow, lv, "", ZERO_TIME);
            EndsWithoutError(s) ==> s.resp.snapshot != "" && s.audited == [(s.resp.snapshot, s.resp.snapshotTime)]
    ensures lv != L3 ==> var s := RunStep(w, AllMatchingWindow, lv, "", ZERO_TIME); s.resp.Answered? && s.resp.status != Pass
  {
    if w.dir.listing != [] {
      var names := Window(w.dir);
      var i :| 0 <= i < |names| && Stat(w.dir, names[i]).None?;
      UnreadableStopsL2(w, i);
      WindowAtL1(w);
      WindowAtL3(w);
    }
  }

  lemma WindowAtL1(w: World)
    requires WindowSafe(w.dir) && w.dir.listing != []
    ensures var s := RunDumpdirL1(w, AllMatchingWindow);
            && s.resp.Answered? && s.resp.status != Pass
            && (s.resp.status != Error ==> s.resp.snapshot == w.dir.listing[0].id && s.audited == [(s.resp.snapshot, s.resp.snapshotTime)])
  {
    var names := Window(w.dir);
    if i :| 0 <= i < |names| && Stat(w.dir, names[i]).Some? {
      JudgedMember(w.dir, names, i);
    }
  }

  lemma UnreadableStopsL2(w: World, i: nat)
    requires i < |w.dir.listing| && Stat(w.dir, Window(w.dir)[i]).None?
    ensures var s := RunDumpdirL2(w, AllMatchingWindow, "", ZERO_TIME); s.resp.Answered? && s.resp.status == Error
  {
    var ids := Selected(w.dir, AllMatchingWindow);
    assert Window(w.dir)[i] == Resolve(ids[i]);
    assert !ValidID(ids[i]) || !Copyable(w.dir, ids[i]);
  }

  lemma WindowAtL3(w: World)
    requires WindowSafe(w.dir) && w.dir.listing != []
    ensures var s := RunDumpdirL3(w, "", ZERO_TIME);
            EndsWithoutError(s) ==> s.resp.snapshot == w.dir.listing[0].id && s.audited == [(s.resp.snapshot, s.resp.snapshotTime)]
  {
    var name := Resolve(w.dir.listing[0].id);
    if Stat(w.dir, name).Some? {
      assert Window(w.dir)[0] == name;
      JudgedMember(w.dir, Window(w.dir), 0);
      JudgedOne(w.dir, name);
    }
  }

  /** Behind a level that did not pass nothing is judged. */
  lemma {:induction false} NothingFollows(p: Progress, levels: seq<Level>, run: Runner, trail: seq<seq<(string, Time)>>)
    requires JudgedPin(p, trail) && p.shortCircuit
    ensures JudgedPin(RunWith(p, levels, AnswerOf(run)), trail + Trail(p, levels, run))
    decreases |levels|
  {
    if levels == [] {
      assert trail + Trail(p, levels, run) == trail;
    } else {
      Unfold(p, levels, run, trail);
      NothingFollows(After(p, levels[0], run), levels[1..], run, trail + [Seen(p, levels[0], run)]);
    }
  }

  /** A first level that judged its pin, if it ended without error. */
  lemma FirstJudgedPin(run: Runner, lv: Level)
    requires var s := run(lv, "", ZERO_TIME);
             EndsWithoutError(s) ==> s.resp.snapshot != "" && s.audited == [(s.resp.snapshot, s.resp.snapshotTime)]
    ensures JudgedPin(After(START, lv, run), [Seen(START, lv, run)])
    ensures run(lv, "", ZERO_TIME).resp.Answered? && run(lv, "", ZERO_TIME).resp.status != Pass ==> After(START, lv, run).shortCircuit
  {
  }

  lemma SafeWindowRun(levels: seq<Level>, worlds: Level -> World, d: Dir)
    requires StartsOn(levels, worlds, d) && WindowSafe(d)
    ensures OneBackupInWindow(levels, worlds)
  {
    var run := Dumpdir(worlds, AllMatchingWindow);
    var q := After(START, levels[0], run);
    var seen := [Seen(START, levels[0], run)];
    WindowFirstLevel(worlds(levels[0]), levels[0]);
    assert run(levels[0], "", ZERO_TIME) == RunStep(worlds(levels[0]), AllMatchingWindow, levels[0], "", ZERO_TIME);
    FirstJudgedPin(run, levels[0]);
    Unfold(START, levels, run, []);
    assert [] + seen == seen && [] + Trail(START, levels, run) == Trail(START, levels, run);
    if levels[1..] == [] {
      assert seen + Trail(q, [], run) == seen;
    } else {
      assert Rank(levels[0]) < Rank(levels[1]);
      NothingFollows(q, levels[1..], run, seen);
    }
  }

  /** A dump lands behind a window that L1 passed: L2 judges two, or more, where one is pinned. */
  lemma GrownWindow(d: Dir) returns (levels: seq<Level>, worlds: Level -> World)
    requires DirOk(d) && d.listing != [] && AllReadable(d, Window(d))
    ensures StartsOn(levels, worlds, d) && !OneBackupInWindow(levels, worlds)
  {
    worlds := lv => if lv == L1 then Smooth(d) else Smooth(GROWN);
    levels := [L1, L2];
    GrownOk();
    var run := Dumpdir(worlds, AllMatchingWindow);
    var q := After(START, L1, run);
    assert run(L1, "", ZERO_TIME) == RunStep(Smooth(d), AllMatchingWindow, L1, "", ZERO_TIME);
    AfterFirst(run, L1, Pass);
    TwoLevels(run, L1, L2);
    WindowGrownFrom(q.st.pin, q.st.pinAt);
    assert After(q, L2, run).done[1].outcome == Ran(Pass);
    assert |Seen(q, L2, run)| == 2;
  }

  lemma FailedAtL1(w: World)
    requires w.readable && w.listable && w.verdict == Fail && w.dir.listing != [] && Judged(w.dir, Window(w.dir)) != []
    ensures RunStep(w, AllMatchingWindow, L1, "", ZERO_TIME)
         == Step(Answered(Fail, w.dir.listing[0].id, w.dir.listing[0].time, 0, 0), Judged(w.dir, Window(w.dir)))
  {
    SomeReadable(w.dir, Window(w.dir));
  }

  /** A window with an unreadable dump fails L1 on readable ones other than its pin. */
  lemma FailedWindow(d: Dir) returns (levels: seq<Level>, worlds: Level -> World)
    requires DirOk(d) && d.listing != [] && !AllReadable(d, Window(d))
    requires Judged(d, Window(d)) != [] && Judged(d, Window(d)) != [(d.listing[0].id, d.listing[0].time)]
    ensures StartsOn(levels, worlds, d) && !OneBackupInWindow(levels, worlds)
  {
    var w := Smooth(d).(verdict := Fail);
    worlds := lv => w;
    levels := [L1];
    var run := Dumpdir(worlds, AllMatchingWindow);
    FailedAtL1(w);
    OneLevel(run, L1);
    var first := run(L1, "", ZERO_TIME);
    assert first == RunStep(w, AllMatchingWindow, L1, "", ZERO_TIME);
    AfterFirst(run, L1, Fail);
  }

  /** What the first level of a run leaves. */
  lemma AfterFirst(run: Runner, lv: Level, v: Verdict)
    requires var s := run(lv, "", ZERO_TIME); s.resp.Answered? && s.resp.status == v && s.resp.snapshot != ""
    ensures var s, q := run(lv, "", ZERO_TIME), After(START, lv, run);
            && |q.done| == 1 && q.done[0].outcome == Ran(v) && q.shortCircuit == (v != Pass)
            && q.st.pin == s.resp.snapshot && q.st.pinAt == s.resp.snapshotTime && Seen(START, lv, run) == s.audited
  {
  }

  /** With all-matching-window, the runs that start on a directory judge nothing but their pin if and
      only if its window is safe, which no directory is whose listed dumps can all be read. */
  lemma WindowExactly(d: Dir)
    requires DirOk(d)
    ensures WindowSafe(d) <==> forall levels, worlds :: StartsOn(levels, worlds, d) ==> OneBackupInWindow(levels, worlds)
  {
    if WindowSafe(d) {
      forall levels, worlds | StartsOn(levels, worlds, d) ensures OneBackupInWindow(levels, worlds) {
        SafeWindowRun(levels, worlds, d);
      }
    } else if AllReadable(d, Window(d)) {
      var levels, worlds := GrownWindow(d);
    } else {
      var levels, worlds := FailedWindow(d);
    }
  }

  // ---- inputs that fail ----

  /** One dump named "a". */
  function Lone(e: Entry): Dir {
    Dir(map["a" := e], {"a"}, [Snapshot("a", OwnTime(e))])
  }

  lemma LoneOk(e: Entry)
    requires e.Link? || !e.self.isDir
    ensures DirOk(Lone(e)) && ValidID("a")
  {
    assert Lone(e).listing[0].id == "a";
  }

  /** A dump with a zero mtime, rewritten between two levels: both pass, on different contents. */
  lemma ZeroTimeSplits()
    ensures RunStep(Smooth(Lone(Plain(Target(0, false)))), PickNewest, L2, "", ZERO_TIME) == Step(Answered(Pass, "a", 0, 0, 0), [("a", 0)])
    ensures RunStep(Smooth(Lone(Plain(Target(5, false)))), PickNewest, L3, "a", 0) == Step(Answered(Pass, "a", 0, 0, 0), [("a", 5)])
  {
    LoneOk(Plain(Target(0, false)));
    JudgedOne(Lone(Plain(Target(0, false))), "a");
    JudgedOne(Lone(Plain(Target(5, false))), "a");
  }

  /** A link whose own time is 7 points at content of time 5, and then at content of time 7: L1 passes
      on the one and L2 on the other. Left alone, the same link is refused at L2. */
  lemma LinkSplits()
    ensures RunStep(Smooth(Lone(Link(7, Some(Target(5, false))))), PickNewest, L1, "", ZERO_TIME) == Step(Answered(Pass, "a", 7, 0, 0), [("a", 5)])
    ensures RunStep(Smooth(Lone(Link(8, Some(Target(7, false))))), PickNewest, L2, "a", 7) == Step(Answered(Pass, "a", 0, 0, 0), [("a", 7)])
    ensures RunStep(Smooth(Lone(Link(7, Some(Target(5, false))))), PickNewest, L2, "a", 7) == ErrorStep("", ZERO_TIME)
  {
    LoneOk(Link(7, Some(Target(5, false))));
    JudgedOne(Lone(Link(7, Some(Target(5, false)))), "a");
    JudgedOne(Lone(Link(8, Some(Target(7, false)))), "a");
    assert Resolved(Selected(Lone(Link(7, Some(Target(5, false)))), PickNewest)) == ["a"];
  }

  const GROWN := Dir(map["a" := Plain(Target(1, false)), "b" := Plain(Target(2, false))], {"a", "b"}, [Snapshot("b", 2), Snapshot("a", 1)])

  /** With pick all-matching-window a dumpdir L2 ignores the pin: a dump that lands between L1 and L2
      becomes part of what L2 judges. */
  lemma WindowIgnoresPin()
    ensures DirOk(GROWN) && DirOk(Lone(GROWN.entries["a"]))
    ensures RunStep(Smooth(Lone(GROWN.entries["a"])), AllMatchingWindow, L1, "", ZERO_TIME) == Step(Answered(Pass, "a", 1, 0, 0), [("a", 1)])
    ensures RunStep(Smooth(GROWN), AllMatchingWindow, L2, "a", 1).audited == [("b", 2), ("a", 1)]
  {
    LoneOk(GROWN.entries["a"]);
    GrownOk();
    WindowAlone();
    WindowGrown();
  }

  lemma GrownOk()
    ensures DirOk(GROWN)
  {
    assert GROWN.listing[0].id == "b" && GROWN.listing[1].id == "a";
  }

  lemma WindowAlone()
    ensures RunStep(Smooth(Lone(GROWN.entries["a"])), AllMatchingWindow, L1, "", ZERO_TIME) == Step(Answered(Pass, "a", 1, 0, 0), [("a", 1)])
  {
    var d := Lone(GROWN.entries["a"]);
    LoneOk(GROWN.entries["a"]);
    assert Resolved(Selected(d, AllMatchingWindow)) == ["a"];
    JudgedOne(d, "a");
  }

  lemma WindowGrown()
    ensures RunStep(Smooth(GROWN), AllMatchingWindow, L2, "a", 1).audited == [("b", 2), ("a", 1)]
  {
    WindowGrownFrom("a", 1);
  }

  lemma WindowGrownFrom(pin: string, pinAt: Time)
    ensures RunStep(Smooth(GROWN), AllMatchingWindow, L2, pin, pinAt) == Step(Answered(Pass, "b", 2, 0, 0), [("b", 2), ("a", 1)])
  {
    assert Selected(GROWN, AllMatchingWindow) == ["b", "a"];
    assert ValidID("a") && ValidID("b");
    assert ["b", "a"][..1] == ["b"];
    JudgedOne(GROWN, "b");
  }
}
