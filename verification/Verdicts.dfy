/** From a validated configuration to the evidence of a level, and what a passing level shows. */
module Verdicts {
  import opened Common
  import opened Config
  import Glob

  datatype EvKind =
    | FileMinBytes | CompressionTest | MaxAge
    | NativeCheck | SnapshotMaxAge | SizeAnomaly
    | Load
    | Of(check: Kind)

  /** Weak evidence comforts; it never counts as proof. */
  datatype Evidence = Evidence(kind: EvKind, status: Verdict, weak: bool)

  datatype LevelResult = LevelResult(status: Verdict, evidence: seq<Evidence>)

  predicate AnyIs(evs: seq<Evidence>, v: Verdict) {
    exists i :: 0 <= i < |evs| && evs[i].status == v
  }

  /** Fail dominates error, error dominates pass; no evidence is a pass. */
  function Aggregate(evs: seq<Evidence>): Verdict {
    if AnyIs(evs, Fail) then Fail else if AnyIs(evs, Error) then Error else Pass
  }

  method AggregateLoop(evs: seq<Evidence>) returns (v: Verdict)
    ensures v == Aggregate(evs)
    ensures v == Fail <==> exists i :: 0 <= i < |evs| && evs[i].status == Fail
    ensures v == Error <==> (exists i :: 0 <= i < |evs| && evs[i].status == Error) && forall i :: 0 <= i < |evs| ==> evs[i].status != Fail
  {
    var hasFail, hasError := false, false;
    for k := 0 to |evs|
      invariant hasFail == exists i :: 0 <= i < k && evs[i].status == Fail
      invariant hasError == exists i :: 0 <= i < k && evs[i].status == Error
    {
      match evs[k].status
      case Fail => hasFail := true;
      case Error => hasError := true;
      case Pass =>
    }
    v := if hasFail then Fail else if hasError then Error else Pass;
  }

  predicate AllPass(evs: seq<Evidence>) {
    forall i :: 0 <= i < |evs| ==> evs[i].status == Pass
  }

  /** Some evidence that counts as proof. */
  predicate HasProof(evs: seq<Evidence>) {
    exists i :: 0 <= i < |evs| && evs[i].status == Pass && !evs[i].weak
  }

  lemma PassMeansAllPass(evs: seq<Evidence>)
    ensures Aggregate(evs) == Pass <==> AllPass(evs)
  {
    if AllPass(evs) {
      assert !AnyIs(evs, Fail) && !AnyIs(evs, Error);
    }
    forall i | 0 <= i < |evs| && Aggregate(evs) == Pass ensures evs[i].status == Pass {
      assert evs[i].status == Fail ==> AnyIs(evs, Fail);
      assert evs[i].status == Error ==> AnyIs(evs, Error);
    }
  }

  // ---- L1 of a dump directory ----

  function DumpChecks(l: Option<L1Config>): seq<EvKind> {
    if l.None? then []
    else
      (if l.value.fileMinBytes.Some? then [FileMinBytes] else [])
      + (if l.value.compressionTest == Some(true) then [CompressionTest] else [])
      + (if l.value.maxAge.Some? then [MaxAge] else [])
  }

  /** What running a check on a dump comes to. */
  type DumpJudge = (string, EvKind) -> Verdict

  function OnDump(dump: string, kinds: seq<EvKind>, judge: DumpJudge): seq<Evidence> {
    seq(|kinds|, i requires 0 <= i < |kinds| => Evidence(kinds[i], judge(dump, kinds[i]), false))
  }

  function OnDumps(dumps: seq<string>, kinds: seq<EvKind>, judge: DumpJudge): seq<Evidence> {
    if dumps == [] then [] else OnDumps(dumps[..|dumps| - 1], kinds, judge) + OnDump(dumps[|dumps| - 1], kinds, judge)
  }

  function ErrorResult(evs: seq<Evidence>): LevelResult {
    LevelResult(Error, evs)
  }

  /** `listing` is None when the directory or its listing failed. */
  function DumpdirL1(l: Option<L1Config>, listing: Option<seq<string>>, window: bool, judge: DumpJudge): LevelResult {
    if listing.None? || listing.value == [] then ErrorResult([])
    else
      var evs := OnDumps(if window then listing.value else listing.value[..1], DumpChecks(l), judge);
      if evs == [] then ErrorResult([]) else LevelResult(Aggregate(evs), evs)
  }

  method RunDumpdirL1(l: Option<L1Config>, listing: Option<seq<string>>, window: bool, judge: DumpJudge) returns (r: LevelResult)
    ensures r == DumpdirL1(l, listing, window, judge)
    ensures listing.None? || listing.value == [] || l.None? ==> r == LevelResult(Error, [])
    ensures l.Some? && listing.Some? && listing.value != [] ==>
              && JudgesDumps(l.value, if window then listing.value else [listing.value[0]], judge, r.evidence)
              && (r.status == Pass <==> r.evidence != [] && forall e :: e in r.evidence ==> e.status == Pass)
              && (r.status == Fail <==> exists e :: e in r.evidence && e.status == Fail)
  {
    if l.Some? && listing.Some? && listing.value != [] {
      DumpdirL1Judges(l.value, listing.value, window, judge);
    }
    if listing.None? || |listing.value| == 0 {
      return ErrorResult([]);
    }
    var selected := listing.value[..1];
    if window {
      selected := listing.value;
    }
    OnDumpsShape(selected, DumpChecks(l), judge);
    var evs := JudgeDumps(selected, DumpChecks(l), judge);
    if |evs| == 0 {
      return ErrorResult([]);
    }
    var v := AggregateLoop(evs);
    r := LevelResult(v, evs);
  }

  method JudgeDumps(selected: seq<string>, kinds: seq<EvKind>, judge: DumpJudge) returns (evs: seq<Evidence>)
    ensures evs == OnDumps(selected, kinds, judge)
  {
    evs := [];
    for k := 0 to |selected|
      invariant evs == OnDumps(selected[..k], kinds, judge)
    {
      var mine: seq<Evidence> := [];
      for i := 0 to |kinds|
        invariant mine == OnDump(selected[k], kinds, judge)[..i]
      {
        mine := mine + [Evidence(kinds[i], judge(selected[k], kinds[i]), false)];
      }
      assert mine == OnDump(selected[k], kinds, judge);
      assert selected[..k + 1][..k] == selected[..k];
      evs := evs + mine;
    }
    assert selected[..|selected|] == selected;
  }

  function Bit(b: bool): nat {
    if b then 1 else 0
  }

  /** The evidence of an L1: for each dump in turn, one entry per configured check, in the order size,
      compression, age, each judged on that dump. */
  ghost predicate JudgesDumps(l: L1Config, dumps: seq<string>, judge: DumpJudge, evs: seq<Evidence>) {
    var size, zip, age := Bit(l.fileMinBytes.Some?), Bit(l.compressionTest == Some(true)), Bit(l.maxAge.Some?);
    && |evs| == |dumps| * (size + zip + age)
    && forall a :: 0 <= a < |dumps| ==> DumpEntries(evs, a * (size + zip + age), l, dumps[a], judge)
  }

  /** The entries of one dump, starting at position `at`. */
  ghost predicate DumpEntries(evs: seq<Evidence>, at: int, l: L1Config, dump: string, judge: DumpJudge) {
    var size, zip, age := Bit(l.fileMinBytes.Some?), Bit(l.compressionTest == Some(true)), Bit(l.maxAge.Some?);
    && 0 <= at && at + size + zip + age <= |evs|
    && (l.fileMinBytes.Some? ==> evs[at] == Evidence(FileMinBytes, judge(dump, FileMinBytes), false))
    && (l.compressionTest == Some(true) ==> evs[at + size] == Evidence(CompressionTest, judge(dump, CompressionTest), false))
    && (l.maxAge.Some? ==> evs[at + size + zip] == Evidence(MaxAge, judge(dump, MaxAge), false))
  }

  lemma DumpEntriesAppend(evs: seq<Evidence>, more: seq<Evidence>, at: int, l: L1Config, dump: string, judge: DumpJudge)
    requires DumpEntries(evs, at, l, dump, judge)
    ensures DumpEntries(evs + more, at, l, dump, judge)
  {
  }

  lemma OwnDumpEntries(evs: seq<Evidence>, l: L1Config, dump: string, judge: DumpJudge)
    ensures DumpEntries(evs + OnDump(dump, DumpChecks(Some(l)), judge), |evs|, l, dump, judge)
  {
    var mine := OnDump(dump, DumpChecks(Some(l)), judge);
    assert forall i :: 0 <= i < |mine| ==> (evs + mine)[|evs| + i] == mine[i];
  }

  function Checked(l: L1Config): nat {
    Bit(l.fileMinBytes.Some?) + Bit(l.compressionTest == Some(true)) + Bit(l.maxAge.Some?)
  }

  /** One more dump. */
  lemma JudgesNext(l: L1Config, prev: seq<string>, last: string, judge: DumpJudge, evs: seq<Evidence>)
    requires JudgesDumps(l, prev, judge, evs)
    ensures JudgesDumps(l, prev + [last], judge, evs + OnDump(last, DumpChecks(Some(l)), judge))
  {
    var n, dumps, mine := Checked(l), prev + [last], OnDump(last, DumpChecks(Some(l)), judge);
    assert |mine| == n && |dumps| * n == |prev| * n + n;
    OwnDumpEntries(evs, l, last, judge);
    forall a | 0 <= a < |dumps| ensures DumpEntries(evs + mine, a * n, l, dumps[a], judge) {
      if a < |prev| {
        assert dumps[a] == prev[a];
        DumpEntriesAppend(evs, mine, a * n, l, prev[a], judge);
      }
    }
  }

  lemma {:induction false} OnDumpsJudges(l: L1Config, dumps: seq<string>, judge: DumpJudge)
    ensures JudgesDumps(l, dumps, judge, OnDumps(dumps, DumpChecks(Some(l)), judge))
    decreases |dumps|
  {
    if dumps != [] {
      var prev, last := dumps[..|dumps| - 1], dumps[|dumps| - 1];
      OnDumpsJudges(l, prev, judge);
      JudgesNext(l, prev, last, judge, OnDumps(prev, DumpChecks(Some(l)), judge));
      assert prev + [last] == dumps;
    }
  }

  /** A dump-directory L1 judges the newest listed dump, or with the window all of them, by exactly the
      configured checks; it passes if some are configured and all pass, and fails if any fails. */
  lemma DumpdirL1Judges(l: L1Config, listing: seq<string>, window: bool, judge: DumpJudge)
    requires listing != []
    ensures var r := DumpdirL1(Some(l), Some(listing), window, judge);
            && JudgesDumps(l, if window then listing else [listing[0]], judge, r.evidence)
            && (r.status == Pass <==> r.evidence != [] && forall e :: e in r.evidence ==> e.status == Pass)
            && (r.status == Fail <==> exists e :: e in r.evidence && e.status == Fail)
  {
    assert listing[..1] == [listing[0]];
    OnDumpsJudges(l, if window then listing else [listing[0]], judge);
    var r := DumpdirL1(Some(l), Some(listing), window, judge);
    PassMeansAllPass(r.evidence);
    if AllPass(r.evidence) {
      forall e | e in r.evidence ensures e.status == Pass {
      }
    }
    forall i | 0 <= i < |r.evidence| ensures r.evidence[i] in r.evidence {
    }
  }

  // ---- L1 of borg and restic ----

  /** What the engine answers: its own check, its snapshot times newest first (None: listing failed). */
  datatype Engine = Engine(native: Verdict, listing: Option<seq<Time>>, now: Time)

  function AgeVerdict(listing: seq<Time>, now: Time, max: int): Verdict {
    if listing == [] || listing[0] == ZERO_TIME then Error else if now - listing[0] <= max then Pass else Fail
  }

  function ArchiveChecks(l: L1Config, e: Engine): seq<Evidence> {
    match e.listing
    case None =>
      (if l.snapshotMaxAge.Some? then [Evidence(SnapshotMaxAge, Error, false)] else [])
      + (if l.sizeAnomalyPct.Some? then [Evidence(SizeAnomaly, Error, false)] else [])
    case Some(times) =>
      (if l.snapshotMaxAge.Some? then [Evidence(SnapshotMaxAge, AgeVerdict(times, e.now, l.snapshotMaxAge.value), false)] else [])
      + (if l.sizeAnomalyPct.Some? then [Evidence(SizeAnomaly, Pass, true)] else [])
  }

  /** `reachable` is false when secrets or the repository could not be reached. */
  function EngineL1(l: Option<L1Config>, reachable: bool, e: Engine): LevelResult {
    if !reachable || l.None? then ErrorResult([])
    else
      var native := if l.value.nativeCheck == Some(true) then [Evidence(NativeCheck, e.native, false)] else [];
      var evs := native + if l.value.snapshotMaxAge.Some? || l.value.sizeAnomalyPct.Some? then ArchiveChecks(l.value, e) else [];
      if evs == [] then ErrorResult([]) else LevelResult(Aggregate(evs), evs)
  }

  /** A borg or restic L1 passes exactly when some check is configured, the engine's own check passes
      if asked for, the newest snapshot is there and no older than allowed if its age is asked for,
      and the listing works if the size check is. */
  lemma EngineL1PassMeans(l: L1Config, reachable: bool, e: Engine)
    ensures !reachable || (l.nativeCheck != Some(true) && l.snapshotMaxAge.None? && l.sizeAnomalyPct.None?) ==>
              EngineL1(Some(l), reachable, e) == LevelResult(Error, [])
    ensures EngineL1(Some(l), reachable, e).status == Fail <==>
              && reachable
              && ((l.nativeCheck == Some(true) && e.native == Fail)
                  || (l.snapshotMaxAge.Some? && e.listing.Some? && e.listing.value != [] && e.listing.value[0] != ZERO_TIME
                      && e.now - e.listing.value[0] > l.snapshotMaxAge.value))
    ensures EngineL1(Some(l), reachable, e).status == Pass <==>
              && reachable
              && (l.nativeCheck == Some(true) || l.snapshotMaxAge.Some? || l.sizeAnomalyPct.Some?)
              && (l.nativeCheck == Some(true) ==> e.native == Pass)
              && (l.snapshotMaxAge.Some? || l.sizeAnomalyPct.Some? ==> e.listing.Some?)
              && (l.snapshotMaxAge.Some? ==>
                    e.listing.value != [] && e.listing.value[0] != ZERO_TIME && e.now - e.listing.value[0] <= l.snapshotMaxAge.value)
  {
    var evs := EngineL1(Some(l), reachable, e).evidence;
    PassMeansAllPass(evs);
    if reachable {
      EngineEntries(l, e);
      assert AnyIs(evs, Fail) <==> exists i :: 0 <= i < |evs| && evs[i].status == Fail;
      assert AllPass(evs) <==> forall i :: 0 <= i < |evs| ==> evs[i].status == Pass;
    }
  }

  /** The evidence of a reachable engine, position by position. */
  lemma EngineEntries(l: L1Config, e: Engine)
    ensures var evs := EngineL1(Some(l), true, e).evidence;
            var n, a := Bit(l.nativeCheck == Some(true)), Bit(l.snapshotMaxAge.Some?);
            && |evs| == n + a + Bit(l.sizeAnomalyPct.Some?)
            && (n == 1 ==> evs[0] == Evidence(NativeCheck, e.native, false))
            && (a == 1 ==> evs[n].kind == SnapshotMaxAge && !evs[n].weak
                           && (evs[n].status == Pass <==>
                                 e.listing.Some? && e.listing.value != [] && e.listing.value[0] != ZERO_TIME && e.now - e.listing.value[0] <= l.snapshotMaxAge.value)
                           && (evs[n].status == Fail <==>
                                 e.listing.Some? && e.listing.value != [] && e.listing.value[0] != ZERO_TIME && e.now - e.listing.value[0] > l.snapshotMaxAge.value))
            && (l.sizeAnomalyPct.Some? ==> evs[n + a] == if e.listing.Some? then Evidence(SizeAnomaly, Pass, true) else Evidence(SizeAnomaly, Error, false))
  {
  }

  // ---- what an L1 pass shows ----

  lemma {:induction false} OnDumpsShape(dumps: seq<string>, kinds: seq<EvKind>, judge: DumpJudge)
    ensures |OnDumps(dumps, kinds, judge)| == |dumps| * |kinds|
    ensures forall i :: 0 <= i < |OnDumps(dumps, kinds, judge)| ==> !OnDumps(dumps, kinds, judge)[i].weak
  {
    if dumps != [] {
      OnDumpsShape(dumps[..|dumps| - 1], kinds, judge);
      assert (|dumps| - 1) * |kinds| + |kinds| == |dumps| * |kinds|;
    }
  }

  /** A passing L1 of a dump directory, validated or not, rests on proof: one passing, non-weak
      evidence per selected dump and configured check. */
  lemma DumpdirL1PassProves(l: Option<L1Config>, listing: Option<seq<string>>, window: bool, judge: DumpJudge)
    requires DumpdirL1(l, listing, window, judge).status == Pass
    ensures var r := DumpdirL1(l, listing, window, judge);
            && AllPass(r.evidence) && HasProof(r.evidence)
            && listing.Some? && |r.evidence| == (if window then |listing.value| else 1) * |DumpChecks(l)|
  {
    var r := DumpdirL1(l, listing, window, judge);
    var dumps := if window then listing.value else listing.value[..1];
    OnDumpsShape(dumps, DumpChecks(l), judge);
    PassMeansAllPass(r.evidence);
    assert r.evidence[0].status == Pass && !r.evidence[0].weak;
  }

  /** Every pass of a borg or restic L1 carries proof, or at least one could pass without any. */
  ghost predicate EngineL1Sound(l: L1Config) {
    forall e: Engine :: EngineL1(Some(l), true, e).status == Pass ==> HasProof(EngineL1(Some(l), true, e).evidence)
  }

  lemma EngineL1PassProves(l: L1Config, e: Engine)
    requires EngineL1(Some(l), true, e).status == Pass && (l.nativeCheck == Some(true) || l.snapshotMaxAge.Some?)
    ensures AllPass(EngineL1(Some(l), true, e).evidence) && HasProof(EngineL1(Some(l), true, e).evidence)
  {
    var evs := EngineL1(Some(l), true, e).evidence;
    PassMeansAllPass(evs);
    assert !evs[0].weak && evs[0].status == Pass;
  }

  /** For an engine L1 with no foreign fields, requiring a check that can fail is what keeps passes
      honest: without one, the advisory size check alone could pass the level. */
  lemma EngineL1SoundExactly(l: L1Config, src: SourceType)
    requires src != Dumpdir && FitsSource(l, src)
    ensures EngineL1Sound(l) <==> HasVerdictCheck(l) || l.sizeAnomalyPct.None?
  {
    if HasVerdictCheck(l) || l.sizeAnomalyPct.None? {
      forall e: Engine | EngineL1(Some(l), true, e).status == Pass ensures HasProof(EngineL1(Some(l), true, e).evidence) {
        EngineL1PassProves(l, e);
      }
    } else {
      var e := Engine(Pass, Some([1]), 1);
      var r := EngineL1(Some(l), true, e);
      assert r.evidence == [Evidence(SizeAnomaly, Pass, true)];
      PassMeansAllPass(r.evidence);
      assert !HasProof(r.evidence);
    }
  }

  /** A passing L1 under a validated configuration is never empty: it holds passing proof. */
  lemma ValidL1PassIsNotVacuous(l: L1Config, src: SourceType, listing: Option<seq<string>>, window: bool, judge: DumpJudge, reachable: bool, e: Engine)
    requires L1Valid(l, src)
    ensures var r := if src == Dumpdir then DumpdirL1(Some(l), listing, window, judge) else EngineL1(Some(l), reachable, e);
            r.status == Pass ==> AllPass(r.evidence) && HasProof(r.evidence)
  {
    if src == Dumpdir {
      if DumpdirL1(Some(l), listing, window, judge).status == Pass {
        DumpdirL1PassProves(Some(l), listing, window, judge);
      }
    } else if EngineL1(Some(l), reachable, e).status == Pass {
      EngineL1PassProves(l, e);
    }
  }

  // ---- L2 and L3 ----

  /** Checks that only comfort: canary files and the entropy heuristic. */
  predicate WeakKind(k: Kind) {
    k == CanaryFile || k == EntropyAnomaly
  }

  /** hash_match and entropy_anomaly can be switched off explicitly. */
  predicate Enabled(c: Check) {
    (c.kind == HashMatch ==> c.hashMatch) && (c.kind == EntropyAnomaly ==> c.entropyAnomaly)
  }

  /** The executor's half of the check registry. */
  predicate BuildableL2(c: Check) {
    match c.kind
    case FileCount => c.fileCount.Some?
    case Sql => false
    case SqlNoError => false
    case Tcp => false
    case _ => true
  }

  predicate BuildableL3(c: Check) {
    match c.kind
    case Sql => c.sql.Some?
    case SqlNoError => true
    case Exec => true
    case Tcp => true
    case _ => false
  }

  /** What the n-th check of a level that is not switched off comes to. Equal checks may differ. */
  type Judge = nat -> Verdict

  function EvidenceFor(c: Check, buildable: bool, verdict: Verdict): Evidence {
    if buildable then Evidence(Of(c.kind), verdict, WeakKind(c.kind)) else Evidence(Of(c.kind), Error, false)
  }

  function EnabledOnly(checks: seq<Check>): seq<Check> {
    if checks == [] then []
    else EnabledOnly(checks[..|checks| - 1]) + if Enabled(checks[|checks| - 1]) then [checks[|checks| - 1]] else []
  }

  function L2Evidence(checks: seq<Check>, judge: Judge): (r: seq<Evidence>)
    ensures |r| == |checks| && forall i :: 0 <= i < |checks| ==> r[i] == EvidenceFor(checks[i], BuildableL2(checks[i]), judge(i))
  {
    seq(|checks|, i requires 0 <= i < |checks| => EvidenceFor(checks[i], BuildableL2(checks[i]), judge(i)))
  }

  function L2Result(checks: seq<Check>, judge: Judge): LevelResult {
    var evs := L2Evidence(EnabledOnly(checks), judge);
    LevelResult(Aggregate(evs), evs)
  }

  lemma EnabledNext(checks: seq<Check>, k: nat)
    requires k < |checks|
    ensures EnabledOnly(checks[..k + 1]) == if Enabled(checks[k]) then EnabledOnly(checks[..k]) + [checks[k]] else EnabledOnly(checks[..k])
  {
    assert checks[..k + 1][..k] == checks[..k];
  }

  lemma L2EvidenceNext(on: seq<Check>, c: Check, judge: Judge)
    ensures L2Evidence(on + [c], judge) == L2Evidence(on, judge) + [EvidenceFor(c, BuildableL2(c), judge(|on|))]
  {
  }

  method FinishL2(checks: seq<Check>, judge: Judge) returns (r: LevelResult)
    ensures r == L2Result(checks, judge)
  {
    var evs: seq<Evidence> := [];
    for k := 0 to |checks|
      invariant evs == L2Evidence(EnabledOnly(checks[..k]), judge)
    {
      var cc := checks[k];
      EnabledNext(checks, k);
      L2EvidenceNext(EnabledOnly(checks[..k]), cc, judge);
      if cc.kind == HashMatch && !cc.hashMatch {
        continue;
      }
      if cc.kind == EntropyAnomaly && !cc.entropyAnomaly {
        continue;
      }
      if !BuildableL2(cc) {
        evs := evs + [Evidence(Of(cc.kind), Error, false)];
        continue;
      }
      evs := evs + [Evidence(Of(cc.kind), judge(|evs|), WeakKind(cc.kind))];
    }
    assert checks[..|checks|] == checks;
    var v := AggregateLoop(evs);
    r := LevelResult(v, evs);
  }

  lemma {:induction false} EnabledMembers(checks: seq<Check>, c: Check)
    ensures c in EnabledOnly(checks) <==> c in checks && Enabled(c)
  {
    if checks != [] {
      EnabledMembers(checks[..|checks| - 1], c);
      assert checks == checks[..|checks| - 1] + [checks[|checks| - 1]];
    }
  }

  /** `at` lists, in order and without repeats, the positions of the checks that are not switched off,
      and `on` the checks there. */
  ghost predicate Positions(checks: seq<Check>, at: seq<nat>, on: seq<Check>) {
    && |at| == |on|
    && (forall i :: 0 <= i < |at| ==> at[i] < |checks| && checks[at[i]] == on[i])
    && (forall i, j :: 0 <= i < j < |at| ==> at[i] < at[j])
    && (forall k :: 0 <= k < |checks| ==> (k in at <==> !SwitchedOff(checks[k])))
  }

  predicate SwitchedOff(c: Check) {
    (c.kind == HashMatch && !c.hashMatch) || (c.kind == EntropyAnomaly && !c.entropyAnomaly)
  }

  /** The checks that are not switched off have their positions. */
  ghost predicate Positioned(checks: seq<Check>) {
    exists at :: Positions(checks, at, EnabledOnly(checks))
  }

  lemma {:induction false} EnabledPositions(checks: seq<Check>)
    ensures Positioned(checks)
    decreases |checks|
  {
    if checks == [] {
      assert Positions(checks, [], EnabledOnly(checks));
    } else {
      EnabledPositions(checks[..|checks| - 1]);
      PositionedNext(checks[..|checks| - 1], checks[|checks| - 1]);
      assert checks[..|checks| - 1] + [checks[|checks| - 1]] == checks;
    }
  }

  lemma PositionedNext(rest: seq<Check>, c: Check)
    requires Positioned(rest)
    ensures Positioned(rest + [c])
  {
    var prev :| Positions(rest, prev, EnabledOnly(rest));
    var at := OnePosition(rest, c, prev, EnabledOnly(rest));
    EnabledLast(rest, c);
  }

  lemma EnabledLast(rest: seq<Check>, c: Check)
    ensures EnabledOnly(rest + [c]) == if SwitchedOff(c) then EnabledOnly(rest) else EnabledOnly(rest) + [c]
  {
    assert (rest + [c])[..|rest|] == rest;
  }

  lemma OnePosition(rest: seq<Check>, c: Check, prev: seq<nat>, on: seq<Check>) returns (at: seq<nat>)
    requires Positions(rest, prev, on)
    ensures Positions(rest + [c], at, if SwitchedOff(c) then on else on + [c])
  {
    if SwitchedOff(c) {
      at := prev;
      PositionsSkip(rest, c, prev, on);
    } else {
      at := prev + [|rest|];
      PositionsAppend(rest, c, prev, on);
    }
  }

  lemma PositionsSkip(checks: seq<Check>, c: Check, at: seq<nat>, on: seq<Check>)
    requires Positions(checks, at, on) && SwitchedOff(c)
    ensures Positions(checks + [c], at, on)
  {
    var all := checks + [c];
    forall i | 0 <= i < |at| ensures at[i] < |all| && all[at[i]] == on[i] {
    }
    forall k | 0 <= k < |all| ensures k in at <==> !SwitchedOff(all[k]) {
      if k == |checks| {
        assert forall i :: 0 <= i < |at| ==> at[i] < k;
      } else {
        assert all[k] == checks[k];
      }
    }
  }

  lemma PositionsAppend(checks: seq<Check>, c: Check, at: seq<nat>, on: seq<Check>)
    requires Positions(checks, at, on) && !SwitchedOff(c)
    ensures Positions(checks + [c], at + [|checks|], on + [c])
  {
    var all, more, ons := checks + [c], at + [|checks|], on + [c];
    forall i | 0 <= i < |more| ensures more[i] < |all| && all[more[i]] == ons[i] {
      assert i < |at| ==> more[i] == at[i] && at[i] < |checks|;
    }
    forall i, j | 0 <= i < j < |more| ensures more[i] < more[j] {
      assert more[i] == at[i];
    }
    forall k | 0 <= k < |all| ensures k in more <==> !SwitchedOff(all[k]) {
      assert k in more <==> k in at || k == |checks|;
      assert k < |checks| ==> all[k] == checks[k];
    }
  }

  /** What can be built at L2 is anything but the L3 kinds and a file count without its settings; what
      was built is weak for canary files and the entropy heuristic. */
  ghost predicate L2Entry(c: Check, v: Verdict, e: Evidence) {
    && e.kind == Of(c.kind)
    && if c.kind == Sql || c.kind == SqlNoError || c.kind == Tcp || (c.kind == FileCount && c.fileCount.None?)
       then e.status == Error && !e.weak
       else e.status == v && (e.weak <==> c.kind == CanaryFile || c.kind == EntropyAnomaly)
  }

  lemma L2EntryHolds(c: Check, v: Verdict)
    ensures L2Entry(c, v, EvidenceFor(c, BuildableL2(c), v))
  {
  }

  /** At L2 the checks that are not switched off yield exactly one evidence each, in order, and the
      level passes exactly when all of it passes, and fails exactly when some of it fails. */
  lemma L2PassMeans(checks: seq<Check>, judge: Judge)
    ensures var on, r := EnabledOnly(checks), L2Result(checks, judge);
            && (exists at :: Positions(checks, at, on))
            && |r.evidence| == |on|
            && (forall i :: 0 <= i < |on| ==> L2Entry(on[i], judge(i), r.evidence[i]))
            && (r.status == Pass <==> forall i :: 0 <= i < |on| ==> r.evidence[i].status == Pass)
            && (r.status == Fail <==> exists i :: 0 <= i < |on| && r.evidence[i].status == Fail)
  {
    EnabledPositions(checks);
    L2EvidenceMeans(EnabledOnly(checks), judge);
  }

  lemma L2EvidenceMeans(on: seq<Check>, judge: Judge)
    ensures var evs := L2Evidence(on, judge);
            && (forall i :: 0 <= i < |on| ==> L2Entry(on[i], judge(i), evs[i]))
            && (Aggregate(evs) == Pass <==> forall i :: 0 <= i < |on| ==> evs[i].status == Pass)
            && (Aggregate(evs) == Fail <==> exists i :: 0 <= i < |on| && evs[i].status == Fail)
  {
    PassMeansAllPass(L2Evidence(on, judge));
    forall i | 0 <= i < |on| ensures L2Entry(on[i], judge(i), L2Evidence(on, judge)[i]) {
      L2EntryHolds(on[i], judge(i));
    }
  }

  lemma L2PassNeeds(checks: seq<Check>, judge: Judge)
    ensures var on := EnabledOnly(checks);
            && (forall c :: c in on <==> c in checks && Enabled(c))
            && (L2Result(checks, judge).status == Pass <==> forall i :: 0 <= i < |on| ==> BuildableL2(on[i]) && judge(i) == Pass)
  {
    var on, r := EnabledOnly(checks), L2Result(checks, judge);
    L2PassMeans(checks, judge);
    forall c ensures c in on <==> c in checks && Enabled(c) {
      EnabledMembers(checks, c);
    }
    assert forall i :: 0 <= i < |on| ==> (r.evidence[i].status == Pass <==> BuildableL2(on[i]) && judge(i) == Pass);
  }

  /** A validated check is always one the executor can build: no kind drifts between the registries. */
  lemma ValidatedChecksAreBuildable(m: Glob.SegmentMatch, c: Check, lv: Level, src: SourceType)
    ensures CheckValid(m, c, lv, src) ==> (lv == L2 && BuildableL2(c)) || (lv == L3 && BuildableL3(c))
  {
  }

  ghost predicate L2Sound(checks: seq<Check>) {
    forall judge: Judge :: L2Result(checks, judge).status == Pass ==> HasProof(L2Result(checks, judge).evidence)
  }

  lemma StrongCheckProves(checks: seq<Check>, c: Check, judge: Judge)
    requires c in checks && Enabled(c) && !WeakKind(c.kind) && L2Result(checks, judge).status == Pass
    ensures HasProof(L2Result(checks, judge).evidence)
  {
    var on := EnabledOnly(checks);
    EnabledMembers(checks, c);
    var i :| 0 <= i < |on| && on[i] == c;
    L2PassNeeds(checks, judge);
    var e := L2Result(checks, judge).evidence[i];
    assert e.status == Pass && !e.weak;
  }

  /** With comfort checks only, all of them passing, L2 passes without any proof. */
  lemma WeakChecksPassUnproved(checks: seq<Check>)
    requires forall c :: c in checks && Enabled(c) ==> BuildableL2(c) && WeakKind(c.kind)
    ensures !L2Sound(checks)
  {
    var on := EnabledOnly(checks);
    var judge: Judge := n => Pass;
    var evs := L2Result(checks, judge).evidence;
    L2PassNeeds(checks, judge);
    forall i | 0 <= i < |evs| ensures evs[i].weak {
      assert on[i] in on;
      EnabledMembers(checks, on[i]);
    }
    assert !HasProof(evs);
  }

  /** The plainest input: without checks L2 passes on no evidence at all. */
  lemma EmptyL2Passes(judge: Judge)
    ensures L2Result([], judge) == LevelResult(Pass, []) && !HasProof(L2Result([], judge).evidence)
  {
    assert L2Evidence(EnabledOnly([]), judge) == [];
  }

  /** L2 has no minimum-check rule. Under a validated configuration its passes carry proof exactly
      when some enabled check is more than a comfort check. */
  lemma L2SoundExactly(m: Glob.SegmentMatch, l: L2Config, src: SourceType)
    requires L2Valid(m, l, src)
    ensures L2Sound(l.checks) <==> exists c :: c in l.checks && Enabled(c) && !WeakKind(c.kind)
  {
    if c :| c in l.checks && Enabled(c) && !WeakKind(c.kind) {
      forall judge: Judge | L2Result(l.checks, judge).status == Pass ensures HasProof(L2Result(l.checks, judge).evidence) {
        StrongCheckProves(l.checks, c, judge);
      }
    } else {
      forall c | c in l.checks && Enabled(c) ensures BuildableL2(c) {
        var k :| 0 <= k < |l.checks| && l.checks[k] == c;
        ValidatedChecksAreBuildable(m, l.checks[k], L2, src);
      }
      WeakChecksPassUnproved(l.checks);
    }
  }

  /** L3 behind a booted sandbox: the version trap, the load, then one evidence per check. */
  function L3Result(checks: seq<Check>, trapped: bool, load: Verdict, judge: Judge): LevelResult {
    if trapped then LevelResult(Fail, [Evidence(Load, Fail, false)])
    else
      var evs := [Evidence(Load, load, false)] + L3Evidence(checks, judge);
      LevelResult(Aggregate(evs), evs)
  }

  function L3Evidence(checks: seq<Check>, judge: Judge): (r: seq<Evidence>)
    ensures |r| == |checks| && forall i :: 0 <= i < |checks| ==> r[i] == EvidenceFor(checks[i], BuildableL3(checks[i]), judge(i))
  {
    seq(|checks|, i requires 0 <= i < |checks| => EvidenceFor(checks[i], BuildableL3(checks[i]), judge(i)))
  }

  /** What can be built at L3 is a query with its settings, a statement, a command or a port. */
  ghost predicate L3Entry(c: Check, v: Verdict, e: Evidence) {
    && e.kind == Of(c.kind) && !e.weak
    && e.status == if (c.kind == Sql && c.sql.Some?) || c.kind == SqlNoError || c.kind == Exec || c.kind == Tcp then v else Error
  }

  lemma L3EntryHolds(c: Check, v: Verdict)
    ensures L3Entry(c, v, EvidenceFor(c, BuildableL3(c), v))
  {
  }

  /** At L3, validated or not: a trapped dump fails on that alone; else the load's entry comes first,
      every configured check adds exactly one in order, and the level passes exactly when all of them
      pass and fails exactly when some of them fails. */
  lemma L3PassMeans(checks: seq<Check>, trapped: bool, load: Verdict, judge: Judge)
    ensures var r := L3Result(checks, trapped, load, judge);
            && (trapped ==> r == LevelResult(Fail, [Evidence(Load, Fail, false)]))
            && (!trapped ==>
                  && |r.evidence| == 1 + |checks| && r.evidence[0] == Evidence(Load, load, false)
                  && (forall i :: 0 <= i < |checks| ==> L3Entry(checks[i], judge(i), r.evidence[i + 1]))
                  && (r.status == Pass <==> forall i :: 0 <= i < |r.evidence| ==> r.evidence[i].status == Pass)
                  && (r.status == Fail <==> exists i :: 0 <= i < |r.evidence| && r.evidence[i].status == Fail))
  {
    var r := L3Result(checks, trapped, load, judge);
    PassMeansAllPass(r.evidence);
    forall i | 0 <= i < |checks| ensures !trapped ==> L3Entry(checks[i], judge(i), r.evidence[i + 1]) {
      L3EntryHolds(checks[i], judge(i));
    }
  }

  method LoadAndCheck(checks: seq<Check>, trapped: bool, load: Verdict, judge: Judge) returns (r: LevelResult)
    ensures r == L3Result(checks, trapped, load, judge)
  {
    var evs: seq<Evidence> := [];
    if trapped {
      evs := evs + [Evidence(Load, Fail, false)];
      return LevelResult(Fail, evs);
    }
    evs := evs + [Evidence(Load, load, false)];
    for k := 0 to |checks|
      invariant evs == [Evidence(Load, load, false)] + L3Evidence(checks, judge)[..k]
    {
      if !BuildableL3(checks[k]) {
        evs := evs + [Evidence(Of(checks[k].kind), Error, false)];
        continue;
      }
      evs := evs + [Evidence(Of(checks[k].kind), judge(k), WeakKind(checks[k].kind))];
    }
    assert L3Evidence(checks, judge)[..|checks|] == L3Evidence(checks, judge);
    var v := AggregateLoop(evs);
    r := LevelResult(v, evs);
  }

  lemma ValidL3Evidence(m: Glob.SegmentMatch, l: L3Config, src: SourceType, judge: Judge)
    requires L3Valid(m, l, src)
    ensures forall i :: 0 <= i < |l.checks| ==> L3Evidence(l.checks, judge)[i] == Evidence(Of(l.checks[i].kind), judge(i), false)
    ensures AllPass(L3Evidence(l.checks, judge)) <==> forall i :: 0 <= i < |l.checks| ==> judge(i) == Pass
  {
    var evs := L3Evidence(l.checks, judge);
    forall i | 0 <= i < |l.checks| ensures evs[i] == Evidence(Of(l.checks[i].kind), judge(i), false) {
      ValidatedChecksAreBuildable(m, l.checks[i], L3, src);
    }
    assert forall i :: 0 <= i < |evs| ==> evs[i].status == judge(i);
  }

  /** A validated L3 passes exactly when the dump is not trapped, loads, and every configured check
      passes; there is at least one check, and each contributed its evidence behind the load's. */
  lemma ValidL3PassMeans(m: Glob.SegmentMatch, l: L3Config, src: SourceType, trapped: bool, load: Verdict, judge: Judge)
    requires L3Valid(m, l, src)
    ensures var r := L3Result(l.checks, trapped, load, judge);
            && (r.status == Pass <==> !trapped && load == Pass && forall i :: 0 <= i < |l.checks| ==> judge(i) == Pass)
            && (!trapped ==>
                  && |r.evidence| == 1 + |l.checks| >= 2 && r.evidence[0] == Evidence(Load, load, false)
                  && forall i :: 0 <= i < |l.checks| ==> r.evidence[1..][i] == Evidence(Of(l.checks[i].kind), judge(i), false))
            && (trapped ==> r == LevelResult(Fail, [Evidence(Load, Fail, false)]))
            && (!trapped ==> (r.status == Fail <==> load == Fail || exists i :: 0 <= i < |l.checks| && judge(i) == Fail))
            && (r.status == Pass ==> HasProof(r.evidence[1..]))
  {
    var r := L3Result(l.checks, trapped, load, judge);
    if !trapped {
      var tail := L3Evidence(l.checks, judge);
      ValidL3Evidence(m, l, src, judge);
      PassMeansAllPass(r.evidence);
      AllPassCons(Evidence(Load, load, false), tail);
      assert r.evidence[1..] == tail;
      if AllPass(tail) {
        assert tail[0].status == Pass && !tail[0].weak;
      }
    }
  }

  lemma AllPassCons(e: Evidence, evs: seq<Evidence>)
    ensures AllPass([e] + evs) <==> e.status == Pass && AllPass(evs)
  {
    var all := [e] + evs;
    if AllPass(all) {
      assert all[0] == e;
      forall i | 0 <= i < |evs| ensures evs[i].status == Pass {
        assert all[i + 1] == evs[i];
      }
    }
  }
}
