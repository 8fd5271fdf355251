/**
 Stale-alert deduplication. Sweeps and run completions are separate goroutines; each critical section,
 and each send outside it, is one action, so they interleave freely.
 */
module Alerter {
  import opened Common
  import opened Staleness

  /** What happened to a drill's stale flag, and the alerts that left. */
  datatype Mark =
    | Raised(drill: string)
    | ClearedFresh(drill: string)   // a sweep found the proof fresh
    | ClearedPass(drill: string)    // a run passed
    | AlertSent(drill: string)      // the stale notification left

  datatype Task =
    | Alerting(drill: string)                                     // a sweep raised the flag and has yet to send
    | Completing(drill: string, status: Verdict, wasStale: bool)  // a finished run has read the flag

  /** `tasks` is one entry per goroutine between two of its steps. */
  datatype State = State(stale: set<string>, tasks: map<nat, Task>, log: seq<Mark>)

  datatype Action =
    | SweepDrill(g: nat, drill: string, isStale: bool)
    | SendStale(g: nat)
    | ReadFlag(g: nat, drill: string, status: Verdict)
    | Complete(g: nat, prev: Option<Verdict>)

  const QUIET: State := State({}, map[], [])

  function Apply(s: State, a: Action): State {
    match a
    case SweepDrill(g, drill, isStale) =>
      if g in s.tasks then s
      else if isStale && drill !in s.stale then State(s.stale + {drill}, s.tasks[g := Alerting(drill)], s.log + [Raised(drill)])
      else if !isStale && drill in s.stale then s.(stale := s.stale - {drill}, log := s.log + [ClearedFresh(drill)])
      else s
    case SendStale(g) =>
      if g !in s.tasks || !s.tasks[g].Alerting? then s
      else s.(tasks := s.tasks - {g}, log := s.log + [AlertSent(s.tasks[g].drill)])
    case ReadFlag(g, drill, status) =>
      if g in s.tasks then s else s.(tasks := s.tasks[g := Completing(drill, status, drill in s.stale)])
    case Complete(g, prev) =>
      if g !in s.tasks || !s.tasks[g].Completing? then s
      else
        var task := s.tasks[g];
        var t := s.(tasks := s.tasks - {g});
        if ClassifyRun(prev, task.status, task.wasStale).Some? && task.status == Pass && task.drill in s.stale
        then t.(stale := t.stale - {task.drill}, log := t.log + [ClearedPass(task.drill)])
        else t
  }

  function Play(acts: seq<Action>): State
    decreases |acts|
  {
    if acts == [] then QUIET else Apply(Play(acts[..|acts| - 1]), acts[|acts| - 1])
  }

  predicate Clears(m: Mark, drill: string) {
    m == ClearedFresh(drill) || m == ClearedPass(drill)
  }

  /** The flag is up when the latest raise or clear of the drill is a raise. */
  function Up(log: seq<Mark>, drill: string): bool
    decreases |log|
  {
    if log == [] then false
    else
      var m := log[|log| - 1];
      if m == Raised(drill) then true else if Clears(m, drill) then false else Up(log[..|log| - 1], drill)
  }

  function Raises(log: seq<Mark>, drill: string): nat
    decreases |log|
  {
    if log == [] then 0 else Raises(log[..|log| - 1], drill) + if log[|log| - 1] == Raised(drill) then 1 else 0
  }

  function Clearings(log: seq<Mark>, drill: string): nat
    decreases |log|
  {
    if log == [] then 0 else Clearings(log[..|log| - 1], drill) + if Clears(log[|log| - 1], drill) then 1 else 0
  }

  function Alerts(log: seq<Mark>, drill: string): nat
    decreases |log|
  {
    if log == [] then 0 else Alerts(log[..|log| - 1], drill) + if log[|log| - 1] == AlertSent(drill) then 1 else 0
  }

  function Unsent(s: State, drill: string): set<nat> {
    set g | g in s.tasks && s.tasks[g] == Alerting(drill)
  }

  ghost predicate Inv(s: State, drill: string) {
    && (drill in s.stale <==> Up(s.log, drill))
    && Raises(s.log, drill) == Clearings(s.log, drill) + (if drill in s.stale then 1 else 0)
    && Raises(s.log, drill) == Alerts(s.log, drill) + |Unsent(s, drill)|
  }

  lemma LogAppend(log: seq<Mark>, m: Mark, drill: string)
    ensures var more := log + [m];
            && Up(more, drill) == (m == Raised(drill) || (!Clears(m, drill) && Up(log, drill)))
            && Raises(more, drill) == Raises(log, drill) + (if m == Raised(drill) then 1 else 0)
            && Clearings(more, drill) == Clearings(log, drill) + (if Clears(m, drill) then 1 else 0)
            && Alerts(more, drill) == Alerts(log, drill) + (if m == AlertSent(drill) then 1 else 0)
  {
    assert (log + [m])[..|log|] == log;
  }

  /** A step that appends at most one mark, with the flag and the unsent alerts moving accordingly. */
  lemma StepKeeps(s: State, t: State, m: Mark, drill: string)
    requires Inv(s, drill) && t.log == s.log + [m]
    requires m == Raised(drill) ==> drill !in s.stale && drill in t.stale && |Unsent(t, drill)| == |Unsent(s, drill)| + 1
    requires Clears(m, drill) ==> drill in s.stale && drill !in t.stale && |Unsent(t, drill)| == |Unsent(s, drill)|
    requires m == AlertSent(drill) ==> (drill in t.stale <==> drill in s.stale) && |Unsent(t, drill)| + 1 == |Unsent(s, drill)|
    requires m.drill != drill ==> (drill in t.stale <==> drill in s.stale) && |Unsent(t, drill)| == |Unsent(s, drill)|
    ensures Inv(t, drill)
  {
    LogAppend(s.log, m, drill);
  }

  lemma UnsentRaised(s: State, t: State, g: nat, d: string, drill: string)
    requires g !in s.tasks && t.tasks == s.tasks[g := Alerting(d)]
    ensures |Unsent(t, drill)| == |Unsent(s, drill)| + if d == drill then 1 else 0
  {
    if d == drill {
      assert Unsent(t, drill) == Unsent(s, drill) + {g};
    } else {
      assert Unsent(t, drill) == Unsent(s, drill);
    }
  }

  lemma SweepKeeps(s: State, g: nat, d: string, isStale: bool, drill: string)
    requires Inv(s, drill)
    ensures Inv(Apply(s, SweepDrill(g, d, isStale)), drill)
  {
    var t := Apply(s, SweepDrill(g, d, isStale));
    if g !in s.tasks && isStale && d !in s.stale {
      UnsentRaised(s, t, g, d, drill);
      StepKeeps(s, t, Raised(d), drill);
    } else if g !in s.tasks && !isStale && d in s.stale {
      assert Unsent(t, drill) == Unsent(s, drill);
      StepKeeps(s, t, ClearedFresh(d), drill);
    }
  }

  lemma SendKeeps(s: State, g: nat, drill: string)
    requires Inv(s, drill)
    ensures Inv(Apply(s, SendStale(g)), drill)
  {
    var t := Apply(s, SendStale(g));
    if g in s.tasks && s.tasks[g].Alerting? {
      assert Unsent(t, drill) == Unsent(s, drill) - {g};
      StepKeeps(s, t, AlertSent(s.tasks[g].drill), drill);
    }
  }

  lemma CompleteKeeps(s: State, g: nat, prev: Option<Verdict>, drill: string)
    requires Inv(s, drill)
    ensures Inv(Apply(s, Complete(g, prev)), drill)
  {
    var t := Apply(s, Complete(g, prev));
    assert Unsent(t, drill) == Unsent(s, drill);
    if t.log != s.log {
      StepKeeps(s, t, ClearedPass(s.tasks[g].drill), drill);
    }
  }

  lemma ApplyKeeps(s: State, a: Action, drill: string)
    requires Inv(s, drill)
    ensures Inv(Apply(s, a), drill)
  {
    match a
    case SweepDrill(g, d, isStale) => SweepKeeps(s, g, d, isStale, drill);
    case SendStale(g) => SendKeeps(s, g, drill);
    case ReadFlag(g, d, status) => assert Unsent(Apply(s, a), drill) == Unsent(s, drill);
    case Complete(g, prev) => CompleteKeeps(s, g, prev, drill);
  }

  lemma {:induction false} PlayInv(acts: seq<Action>, drill: string)
    ensures Inv(Play(acts), drill)
    decreases |acts|
  {
    if acts == [] {
      assert Unsent(QUIET, drill) == {};
    } else {
      PlayInv(acts[..|acts| - 1], drill);
      ApplyKeeps(Play(acts[..|acts| - 1]), acts[|acts| - 1], drill);
    }
  }

  lemma {:induction false} PlayGrows(acts: seq<Action>, n: nat)
    requires n <= |acts|
    ensures Play(acts[..n]).log <= Play(acts).log
    decreases |acts| - n
  {
    if n < |acts| {
      PlayGrows(acts, n + 1);
      assert acts[..n + 1][..n] == acts[..n];
    } else {
      assert acts[..n] == acts;
    }
  }

  /** In a log where every raise found the flag down, two raises have a clear between them. */
  ghost predicate Alternates(log: seq<Mark>, drill: string) {
    forall i :: 0 <= i < |log| && log[i] == Raised(drill) ==> !Up(log[..i], drill)
  }

  lemma {:induction false} DownNeedsClear(log: seq<Mark>, drill: string, i: nat)
    requires i < |log| && log[i] == Raised(drill) && !Up(log, drill)
    ensures exists k :: i < k < |log| && Clears(log[k], drill)
    decreases |log|
  {
    var n := |log| - 1;
    if !Clears(log[n], drill) {
      assert log[..n][i] == log[i];
      DownNeedsClear(log[..n], drill, i);
      var k :| i < k < n && Clears(log[..n][k], drill);
      assert Clears(log[k], drill);
    }
  }

  lemma {:induction false} LogAlternates(acts: seq<Action>, drill: string)
    ensures Alternates(Play(acts).log, drill)
    decreases |acts|
  {
    if acts != [] {
      var n := |acts| - 1;
      var s, t := Play(acts[..n]), Play(acts);
      LogAlternates(acts[..n], drill);
      PlayInv(acts[..n], drill);
      PlayGrows(acts, n);
      forall i | 0 <= i < |t.log| && t.log[i] == Raised(drill) ensures !Up(t.log[..i], drill) {
        if i < |s.log| {
          assert s.log[i] == t.log[i] && t.log[..i] == s.log[..i];
        } else {
          assert t.log[..i] == s.log;
        }
      }
    }
  }

  /** Over any interleaving of sweeps and completions: between two decisions to alert on the same
      drill, its flag was cleared by a sweep that found the proof fresh or by a passing run. */
  lemma ClearedBetweenAlerts(acts: seq<Action>, drill: string, i: nat, j: nat)
    requires i < j < |Play(acts).log|
    requires Play(acts).log[i] == Raised(drill) && Play(acts).log[j] == Raised(drill)
    ensures exists k :: i < k < j && Clears(Play(acts).log[k], drill)
  {
    var log := Play(acts).log;
    LogAlternates(acts, drill);
    assert log[..j][i] == log[i];
    DownNeedsClear(log[..j], drill, i);
    var k :| i < k < j && Clears(log[..j][k], drill);
    assert Clears(log[k], drill);
  }

  /** Counted in notifications that left: at most one more than the times the flag was cleared; and
      with no send outstanding, exactly one per episode. */
  lemma OneAlertPerEpisode(acts: seq<Action>, drill: string)
    ensures var s := Play(acts);
            && Alerts(s.log, drill) <= Clearings(s.log, drill) + 1
            && (Unsent(s, drill) == {} ==> Alerts(s.log, drill) == Clearings(s.log, drill) + if drill in s.stale then 1 else 0)
  {
    PlayInv(acts, drill);
  }

  /** One look of a sweep at a drill: afterwards the flag says what it found, an alert is to be sent
      exactly when a flag went up, and one that was down already or is still up changes nothing. */
  lemma SweepSetsFlag(acts: seq<Action>, g: nat, drill: string, isStale: bool)
    requires g !in Play(acts).tasks
    ensures var s, t := Play(acts), Play(acts + [SweepDrill(g, drill, isStale)]);
            && t.stale == (if isStale then s.stale + {drill} else s.stale - {drill})
            && t.tasks == (if isStale && drill !in s.stale then s.tasks[g := Alerting(drill)] else s.tasks)
            && t.log == s.log + if isStale && drill !in s.stale then [Raised(drill)] else if !isStale && drill in s.stale then [ClearedFresh(drill)] else []
  {
    PlayStep(acts, SweepDrill(g, drill, isStale));
    var s := Play(acts);
    assert isStale && drill in s.stale ==> s.stale + {drill} == s.stale;
    assert !isStale && drill !in s.stale ==> s.stale - {drill} == s.stale;
  }

  /** A sweep that finds the proof stale leaves the flag up: this episode has been, or is being, alerted. */
  lemma StaleSweepRaises(acts: seq<Action>, g: nat, drill: string)
    requires g !in Play(acts).tasks
    ensures var t := Play(acts + [SweepDrill(g, drill, true)]);
            drill in t.stale && Up(t.log, drill) && Raises(t.log, drill) == Clearings(t.log, drill) + 1
  {
    assert (acts + [SweepDrill(g, drill, true)])[..|acts|] == acts;
    PlayInv(acts + [SweepDrill(g, drill, true)], drill);
  }

  /** `more` sends two alerts on the drill with no clear of its flag on the way. */
  ghost predicate Repeats(acts: seq<Action>, more: seq<Action>, drill: string) {
    && Clearings(Play(acts + more).log, drill) == Clearings(Play(acts).log, drill)
    && Alerts(Play(acts + more).log, drill) >= Alerts(Play(acts).log, drill) + 2
  }

  /** How many alerts on the drill can still leave before its flag is cleared again. */
  function Budget(s: State, drill: string): nat {
    |Unsent(s, drill)| + if drill in s.stale then 0 else 1
  }

  lemma PlayStep(acts: seq<Action>, a: Action)
    ensures Play(acts + [a]) == Apply(Play(acts), a)
  {
    assert (acts + [a])[..|acts|] == acts;
  }

  lemma PlayTwo(acts: seq<Action>, a: Action, b: Action)
    ensures Play(acts + [a, b]) == Apply(Apply(Play(acts), a), b)
  {
    assert (acts + [a]) + [b] == acts + [a, b] by {
      assert [a] + [b] == [a, b];
    }
    PlayStep(acts + [a], b);
    PlayStep(acts, a);
  }

  lemma PlayThree(acts: seq<Action>, a: Action, b: Action, c: Action)
    ensures Play(acts + [a, b, c]) == Apply(Apply(Apply(Play(acts), a), b), c)
  {
    assert (acts + [a, b]) + [c] == acts + [a, b, c] by {
      assert [a, b] + [c] == [a, b, c];
    }
    PlayStep(acts + [a, b], c);
    PlayTwo(acts, a, b);
  }

  /** Sending an outstanding alert. */
  lemma SendOne(s: State, g: nat, drill: string) returns (t: State)
    requires g in Unsent(s, drill)
    ensures t == Apply(s, SendStale(g)) && g !in t.tasks && t.stale == s.stale && |Unsent(t, drill)| == |Unsent(s, drill)| - 1
    ensures Clearings(t.log, drill) == Clearings(s.log, drill) && Alerts(t.log, drill) == Alerts(s.log, drill) + 1
  {
    t := Apply(s, SendStale(g));
    assert t.log == s.log + [AlertSent(drill)];
    LogAppend(s.log, AlertSent(drill), drill);
    assert Unsent(t, drill) == Unsent(s, drill) - {g};
  }

  /** A sweep raising a flag that is down. */
  lemma RaiseOne(s: State, g: nat, drill: string) returns (t: State)
    requires g !in s.tasks && drill !in s.stale
    ensures t == Apply(s, SweepDrill(g, drill, true)) && g in Unsent(t, drill)
    ensures Clearings(t.log, drill) == Clearings(s.log, drill) && Alerts(t.log, drill) == Alerts(s.log, drill)
  {
    t := Apply(s, SweepDrill(g, drill, true));
    assert t.log == s.log + [Raised(drill)];
    LogAppend(s.log, Raised(drill), drill);
  }

  lemma TwoOutstanding(acts: seq<Action>, drill: string) returns (more: seq<Action>)
    requires |Unsent(Play(acts), drill)| >= 2
    ensures Repeats(acts, more, drill)
  {
    var s := Play(acts);
    var g :| g in Unsent(s, drill);
    var t := SendOne(s, g, drill);
    assert Unsent(t, drill) != {};
    var h :| h in Unsent(t, drill);
    var u := SendOne(t, h, drill);
    PlayTwo(acts, SendStale(g), SendStale(h));
    more := [SendStale(g), SendStale(h)];
  }

  lemma ClearedUnderAlert(acts: seq<Action>, drill: string) returns (more: seq<Action>, g: nat)
    requires Unsent(Play(acts), drill) != {} && drill !in Play(acts).stale
    ensures Repeats(acts, more, drill) && g in Unsent(Play(acts), drill)
    ensures more == [SendStale(g), SweepDrill(g, drill, true), SendStale(g)]
  {
    var s := Play(acts);
    g :| g in Unsent(s, drill);
    var t := SendOne(s, g, drill);
    var u := RaiseOne(t, g, drill);
    var v := SendOne(u, g, drill);
    PlayThree(acts, SendStale(g), SweepDrill(g, drill, true), SendStale(g));
    more := [SendStale(g), SweepDrill(g, drill, true), SendStale(g)];
  }

  /** Two alerts with no clear between them can follow only a point with two alerts to send, or one
      and a flag that is down; and after any such point they can. */
  lemma RepeatWithinBudget(acts: seq<Action>, drill: string)
    ensures (exists more :: Repeats(acts, more, drill)) <==> Budget(Play(acts), drill) >= 2
  {
    PlayInv(acts, drill);
    forall more | Repeats(acts, more, drill) ensures Budget(Play(acts), drill) >= 2 {
      PlayInv(acts + more, drill);
    }
    if |Unsent(Play(acts), drill)| >= 2 {
      var more := TwoOutstanding(acts, drill);
    } else if Budget(Play(acts), drill) >= 2 {
      var more, g := ClearedUnderAlert(acts, drill);
    }
  }

  // ---- the one sweep goroutine ----

  /** Some sweep has yet to send its alert. */
  ghost predicate Sending(s: State) {
    exists g :: g in s.tasks && s.tasks[g].Alerting?
  }

  /** The daemon has a single sweeper, which sends before it looks at the next drill. */
  ghost predicate OneSweeper(acts: seq<Action>) {
    forall i :: 0 <= i < |acts| && acts[i].SweepDrill? ==> !Sending(Play(acts[..i]))
  }

  lemma OneSweeperNext(acts: seq<Action>, a: Action)
    ensures OneSweeper(acts + [a]) <==> OneSweeper(acts) && (a.SweepDrill? ==> !Sending(Play(acts)))
  {
    var all := acts + [a];
    assert all[..|acts|] == acts && all[|acts|] == a;
    assert forall i :: 0 <= i < |acts| ==> all[i] == acts[i] && all[..i] == acts[..i];
  }

  /** At most one alert is on its way. */
  ghost predicate AtMostOne(s: State) {
    forall g, h :: g in s.tasks && h in s.tasks && s.tasks[g].Alerting? && s.tasks[h].Alerting? ==> g == h
  }

  lemma {:induction false} SweeperAlone(acts: seq<Action>)
    requires OneSweeper(acts)
    ensures AtMostOne(Play(acts))
    decreases |acts|
  {
    if acts != [] {
      var before, a := acts[..|acts| - 1], acts[|acts| - 1];
      assert before + [a] == acts;
      OneSweeperNext(before, a);
      SweeperAlone(before);
      StillAlone(Play(before), a);
    }
  }

  lemma StillAlone(s: State, a: Action)
    requires AtMostOne(s) && (a.SweepDrill? ==> !Sending(s))
    ensures AtMostOne(Apply(s, a))
  {
    match a
    case SweepDrill(g, drill, isStale) => assert forall h :: h in s.tasks ==> !s.tasks[h].Alerting?;
    case SendStale(g) =>
    case ReadFlag(g, drill, status) =>
    case Complete(g, prev) =>
  }

  lemma OneUnsent(s: State, drill: string)
    requires AtMostOne(s)
    ensures |Unsent(s, drill)| <= 1
  {
    if Unsent(s, drill) != {} {
      var g :| g in Unsent(s, drill);
      assert Unsent(s, drill) == {g};
    }
  }

  /** The sweeper may look at the drill again once its alert is out. */
  lemma ResendAllowed(acts: seq<Action>, g: nat, drill: string)
    requires OneSweeper(acts) && g in Unsent(Play(acts), drill)
    ensures OneSweeper(acts + [SendStale(g), SweepDrill(g, drill, true), SendStale(g)])
  {
    var one := acts + [SendStale(g)];
    var two := one + [SweepDrill(g, drill, true)];
    SweeperAlone(acts);
    OneSweeperNext(acts, SendStale(g));
    PlayStep(acts, SendStale(g));
    assert !Sending(Play(one));
    OneSweeperNext(one, SweepDrill(g, drill, true));
    OneSweeperNext(two, SendStale(g));
    assert two + [SendStale(g)] == acts + [SendStale(g), SweepDrill(g, drill, true), SendStale(g)];
  }

  /** With one sweeper: two alerts with no clear between them can follow a point if and only if the
      drill's flag was cleared there under an alert still to be sent. */
  lemma RepeatExactly(acts: seq<Action>, drill: string)
    requires OneSweeper(acts)
    ensures (exists more :: OneSweeper(acts + more) && Repeats(acts, more, drill))
       <==> Unsent(Play(acts), drill) != {} && drill !in Play(acts).stale
  {
    SweeperAlone(acts);
    OneUnsent(Play(acts), drill);
    RepeatWithinBudget(acts, drill);
    if Unsent(Play(acts), drill) != {} && drill !in Play(acts).stale {
      var more, g := ClearedUnderAlert(acts, drill);
      ResendAllowed(acts, g, drill);
    }
  }

  // ---- what a passing run leaves of the flag ----

  /** No action of the stretch completes goroutine g. */
  predicate StillRunning(mid: seq<Action>, g: nat) {
    forall i :: 0 <= i < |mid| ==> !(mid[i].Complete? && mid[i].g == g)
  }

  /** Until it completes, a run holds on to the flag it read. */
  lemma {:induction false} FlagRemembered(before: seq<Action>, g: nat, drill: string, status: Verdict, mid: seq<Action>)
    requires g !in Play(before).tasks && StillRunning(mid, g)
    ensures var s := Play(before + [ReadFlag(g, drill, status)] + mid);
            g in s.tasks && s.tasks[g] == Completing(drill, status, drill in Play(before).stale)
    decreases |mid|
  {
    var read := before + [ReadFlag(g, drill, status)];
    if mid == [] {
      PlayStep(before, ReadFlag(g, drill, status));
      assert read + mid == read;
    } else {
      var n := |mid| - 1;
      FlagRemembered(before, g, drill, status, mid[..n]);
      assert read + mid == (read + mid[..n]) + [mid[n]];
      PlayStep(read + mid[..n], mid[n]);
      OthersLeaveTask(Play(read + mid[..n]), mid[n], g);
    }
  }

  lemma OthersLeaveTask(s: State, a: Action, g: nat)
    requires g in s.tasks && s.tasks[g].Completing? && !(a.Complete? && a.g == g)
    ensures g in Apply(s, a).tasks && Apply(s, a).tasks[g] == s.tasks[g]
  {
  }

  /** For every interleaving: after the completion of a passing run its drill is still flagged as
      stale if and only if the flag was down when the run read it, has come up since, and the run
      before it neither failed nor errored, so that nothing is announced and nothing cleared. */
  lemma PassLeavesFlagExactly(before: seq<Action>, g: nat, drill: string, mid: seq<Action>, prev: Option<Verdict>)
    requires g !in Play(before).tasks && StillRunning(mid, g)
    ensures var held := Play(before + [ReadFlag(g, drill, Pass)] + mid);
            var done := Play(before + [ReadFlag(g, drill, Pass)] + mid + [Complete(g, prev)]);
            drill in done.stale <==>
              drill !in Play(before).stale && drill in held.stale && prev != Some(Fail) && prev != Some(Error)
  {
    FlagRemembered(before, g, drill, Pass, mid);
    PlayStep(before + [ReadFlag(g, drill, Pass)] + mid, Complete(g, prev));
  }

  /** Any other completion leaves every flag as it is. */
  lemma OnlyPassesClear(acts: seq<Action>, g: nat, prev: Option<Verdict>)
    requires g in Play(acts).tasks && Play(acts).tasks[g].Completing? && Play(acts).tasks[g].status != Pass
    ensures Play(acts + [Complete(g, prev)]).stale == Play(acts).stale
  {
    PlayStep(acts, Complete(g, prev));
  }

  /** A sweep that raises the flag between a passing run's read and its end: the flag stays up. */
  lemma SweepDuringCompletion()
    ensures "db" in Play([ReadFlag(1, "db", Pass), SweepDrill(0, "db", true), Complete(1, Some(Pass))]).stale
  {
    PlayThree([], ReadFlag(1, "db", Pass), SweepDrill(0, "db", true), Complete(1, Some(Pass)));
    var acts := [ReadFlag(1, "db", Pass), SweepDrill(0, "db", true), Complete(1, Some(Pass))];
    assert [] + acts == acts;
  }

  const OVERTAKEN: seq<Action> := [
    SweepDrill(0, "db", true),
    ReadFlag(1, "db", Pass),
    Complete(1, None),
    SendStale(0),
    SweepDrill(0, "db", true),
    SendStale(0)]

  /** The clear may overtake the first send: read off the notifications alone, two stale alerts can
      follow each other with no clear between them. */
  lemma ClearMayOvertakeSend()
    ensures Play(OVERTAKEN).log == [Raised("db"), ClearedPass("db"), AlertSent("db"), Raised("db"), AlertSent("db")]
  {
    var a := OVERTAKEN;
    assert a[..6] == a;
    assert a[..6][..5] == a[..5] && a[..5][..4] == a[..4] && a[..4][..3] == a[..3] && a[..3][..2] == a[..2] && a[..2][..1] == a[..1] && a[..1][..0] == [];
    var s1 := Apply(QUIET, a[0]);
    assert Play(a[..1]) == s1;
    var s2 := Apply(s1, a[1]);
    assert Play(a[..2]) == s2;
    var s3 := Apply(s2, a[2]);
    assert Play(a[..3]) == s3;
    var s4 := Apply(s3, a[3]);
    assert Play(a[..4]) == s4;
    var s5 := Apply(s4, a[4]);
    assert Play(a[..5]) == s5;
  }
}
