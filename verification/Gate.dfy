/**
 The single-flight gate shared by the scheduler and the API: a token channel of fixed capacity and a
 set of drills in flight. Releasing takes two steps, and anything may happen between them.
 */
module Gate {

  /** Releasing: the claim is deleted, the token not yet received from the channel. */
  datatype Phase = Holding | Releasing | Released

  datatype Holder = Holder(drill: string, phase: Phase)

  datatype State = State(cap: nat, tokens: nat, inflight: set<string>, holders: map<nat, Holder>)

  /** `h` names one successful acquisition, and with it one release closure. */
  datatype Action =
    | TryAcquire(h: nat, drill: string)
    | ReleaseClaim(h: nat)
    | ReleaseToken(h: nat)

  function NewGate(concurrency: int): State {
    State(if concurrency < 1 then 1 else concurrency, 0, {}, map[])
  }

  predicate Grants(s: State, drill: string) {
    drill !in s.inflight && s.tokens < s.cap
  }

  predicate InPhase(s: State, h: nat, phase: Phase) {
    h in s.holders && s.holders[h].phase == phase
  }

  // A release closure that has already been entered does nothing (sync.Once); the receive of a
  // release waits while the channel is empty.
  function Apply(s: State, a: Action): State {
    match a
    case TryAcquire(h, drill) =>
      if h in s.holders || !Grants(s, drill) then s
      else State(s.cap, s.tokens + 1, s.inflight + {drill}, s.holders[h := Holder(drill, Holding)])
    case ReleaseClaim(h) =>
      if !InPhase(s, h, Holding) then s
      else s.(inflight := s.inflight - {s.holders[h].drill}, holders := s.holders[h := s.holders[h].(phase := Releasing)])
    case ReleaseToken(h) =>
      if !InPhase(s, h, Releasing) || s.tokens == 0 then s
      else s.(tokens := s.tokens - 1, holders := s.holders[h := s.holders[h].(phase := Released)])
  }

  function Play(s: State, acts: seq<Action>): State
    decreases |acts|
  {
    if acts == [] then s else Apply(Play(s, acts[..|acts| - 1]), acts[|acts| - 1])
  }

  function MidRelease(s: State): set<nat> {
    set h | h in s.holders && s.holders[h].phase == Releasing
  }

  ghost predicate Held(s: State, drill: string) {
    exists h :: InPhase(s, h, Holding) && s.holders[h].drill == drill
  }

  /** No drill is held twice, and the drills in flight are exactly those held. */
  ghost predicate SingleFlight(s: State) {
    && (forall h1, h2 :: InPhase(s, h1, Holding) && InPhase(s, h2, Holding) && s.holders[h1].drill == s.holders[h2].drill ==> h1 == h2)
    && (forall h :: InPhase(s, h, Holding) ==> s.holders[h].drill in s.inflight)
    && (forall d :: d in s.inflight ==> Held(s, d))
  }

  ghost predicate Inv(s: State) {
    SingleFlight(s) && s.tokens == |s.inflight| + |MidRelease(s)| && s.tokens <= s.cap
  }

  lemma AcquireSingleFlight(s: State, t: State, h: nat, drill: string)
    requires SingleFlight(s) && h !in s.holders && drill !in s.inflight
    requires t.inflight == s.inflight + {drill} && t.holders == s.holders[h := Holder(drill, Holding)]
    ensures SingleFlight(t)
  {
    assert forall g :: g != h ==> (InPhase(t, g, Holding) <==> InPhase(s, g, Holding));
    assert InPhase(t, h, Holding);
    forall d | d in s.inflight ensures Held(t, d) {
      var g :| InPhase(s, g, Holding) && s.holders[g].drill == d;
      assert InPhase(t, g, Holding);
    }
  }

  lemma AcquireKeeps(s: State, h: nat, drill: string)
    requires Inv(s)
    ensures Inv(Apply(s, TryAcquire(h, drill)))
  {
    var t := Apply(s, TryAcquire(h, drill));
    if h !in s.holders && Grants(s, drill) {
      AcquireSingleFlight(s, t, h, drill);
      assert MidRelease(t) == MidRelease(s);
    }
  }

  /** Changing a holder's phase keeps the single-flight facts when the claim goes with the holder. */
  lemma PhaseSingleFlight(s: State, t: State, h: nat, phase: Phase)
    requires SingleFlight(s) && h in s.holders && phase != Holding
    requires t.holders == s.holders[h := s.holders[h].(phase := phase)]
    requires t.inflight == if InPhase(s, h, Holding) then s.inflight - {s.holders[h].drill} else s.inflight
    ensures SingleFlight(t)
  {
    assert forall g :: InPhase(t, g, Holding) <==> g != h && InPhase(s, g, Holding);
    assert forall g :: g != h && g in t.holders ==> t.holders[g] == s.holders[g];
    forall d | d in t.inflight ensures Held(t, d) {
      assert Held(s, d);
      var g :| InPhase(s, g, Holding) && s.holders[g].drill == d;
      assert InPhase(t, g, Holding);
    }
  }

  lemma ReleaseClaimKeeps(s: State, h: nat)
    requires Inv(s)
    ensures Inv(Apply(s, ReleaseClaim(h)))
  {
    var t := Apply(s, ReleaseClaim(h));
    if InPhase(s, h, Holding) {
      PhaseSingleFlight(s, t, h, Releasing);
      assert s.holders[h].drill in s.inflight;
      assert MidRelease(t) == MidRelease(s) + {h};
    }
  }

  lemma ReleaseTokenKeeps(s: State, h: nat)
    requires Inv(s)
    ensures Inv(Apply(s, ReleaseToken(h)))
  {
    var t := Apply(s, ReleaseToken(h));
    if InPhase(s, h, Releasing) && s.tokens > 0 {
      PhaseSingleFlight(s, t, h, Released);
      assert h in MidRelease(s);
      assert MidRelease(t) == MidRelease(s) - {h};
    }
  }

  /** Both steps of a release, one right after the other. */
  lemma ReleaseKeeps(s: State, h: nat)
    requires Inv(s) && InPhase(s, h, Holding)
    ensures var t := Apply(s, ReleaseClaim(h));
            var u := Apply(t, ReleaseToken(h));
            && Inv(u) && InPhase(t, h, Releasing) && t.tokens > 0 && InPhase(u, h, Released)
            && u.inflight == s.inflight - {s.holders[h].drill} && u.tokens == s.tokens - 1
  {
    ReleaseClaimKeeps(s, h);
    assert h in MidRelease(Apply(s, ReleaseClaim(h)));
    ReleaseTokenKeeps(Apply(s, ReleaseClaim(h)), h);
  }

  lemma {:induction false} PlayKeeps(concurrency: int, acts: seq<Action>)
    ensures Inv(Play(NewGate(concurrency), acts))
    ensures Play(NewGate(concurrency), acts).cap == NewGate(concurrency).cap
    decreases |acts|
  {
    if acts != [] {
      var s := Play(NewGate(concurrency), acts[..|acts| - 1]);
      PlayKeeps(concurrency, acts[..|acts| - 1]);
      match acts[|acts| - 1]
      case TryAcquire(h, drill) => AcquireKeeps(s, h, drill);
      case ReleaseClaim(h) => ReleaseClaimKeeps(s, h);
      case ReleaseToken(h) => ReleaseTokenKeeps(s, h);
    } else {
      assert MidRelease(NewGate(concurrency)) == {};
    }
  }

  /** Over every interleaving: tokens in the channel are the claims in flight plus the releases half
      done, never more than the concurrency; and no drill has two active holders. */
  lemma GateSafety(concurrency: int, acts: seq<Action>)
    ensures var s := Play(NewGate(concurrency), acts);
            && s.tokens == |s.inflight| + |MidRelease(s)|
            && s.tokens <= (if concurrency < 1 then 1 else concurrency)
            && (forall h1, h2 :: InPhase(s, h1, Holding) && InPhase(s, h2, Holding) && s.holders[h1].drill == s.holders[h2].drill ==> h1 == h2)
  {
    PlayKeeps(concurrency, acts);
  }

  /** The receive of a release never blocks: a release that deleted its claim can always finish. */
  lemma ReceiveNeverBlocks(concurrency: int, acts: seq<Action>, h: nat)
    requires InPhase(Play(NewGate(concurrency), acts), h, Releasing)
    ensures InPhase(Play(NewGate(concurrency), acts + [ReleaseToken(h)]), h, Released)
  {
    PlayKeeps(concurrency, acts);
    var s := Play(NewGate(concurrency), acts);
    assert h in MidRelease(s);
    assert (acts + [ReleaseToken(h)])[..|acts|] == acts;
  }

  /** A release step never takes the claim of another acquisition, and a repeated release changes nothing. */
  lemma ReleaseOnlyOwnClaim(concurrency: int, acts: seq<Action>, h: nat, other: nat)
    requires InPhase(Play(NewGate(concurrency), acts), other, Holding) && other != h
    ensures var s := Play(NewGate(concurrency), acts);
            var t := Apply(s, ReleaseClaim(h));
            && InPhase(t, other, Holding) && t.holders[other].drill in t.inflight
            && (!InPhase(s, h, Holding) ==> t == s)
  {
    PlayKeeps(concurrency, acts);
    var s := Play(NewGate(concurrency), acts);
    assert InPhase(s, h, Holding) ==> s.holders[h].drill != s.holders[other].drill;
  }

  /** A drill is refused exactly while it is held, or while claims and half-done releases make up the
      configured concurrency; once everyone has released, any drill is granted. */
  lemma RefusalExplained(concurrency: int, acts: seq<Action>, drill: string)
    ensures var s := Play(NewGate(concurrency), acts);
            && (!Grants(s, drill) <==>
                  Held(s, drill) || |s.inflight| + |MidRelease(s)| == (if concurrency < 1 then 1 else concurrency))
            && ((forall h :: h in s.holders ==> s.holders[h].phase == Released) ==> Grants(s, drill))
  {
    PlayKeeps(concurrency, acts);
    var s := Play(NewGate(concurrency), acts);
    if forall h :: h in s.holders ==> s.holders[h].phase == Released {
      assert MidRelease(s) == {};
      assert forall d :: !Held(s, d);
      assert s.inflight == {};
    }
  }

  /** Different drills, one acquisition each. */
  function AcquireAll(drills: seq<string>): seq<Action> {
    seq(|drills|, i requires 0 <= i < |drills| => TryAcquire(i, drills[i]))
  }

  /** The drills are all in flight, the i-th held by acquisition i. */
  ghost predicate AllHeld(s: State, drills: seq<string>) {
    && s.tokens == |drills| && (forall h :: h in s.holders ==> h < |drills|)
    && (forall d :: d in s.inflight ==> d in drills)
    && (forall i :: 0 <= i < |drills| ==> InPhase(s, i, Holding) && s.holders[i].drill == drills[i] && drills[i] in s.inflight)
  }

  lemma OneMoreHeld(s: State, drills: seq<string>, drill: string)
    requires AllHeld(s, drills) && drill !in drills && |drills| < s.cap
    ensures Grants(s, drill) && AllHeld(Apply(s, TryAcquire(|drills|, drill)), drills + [drill])
  {
    var t, all := Apply(s, TryAcquire(|drills|, drill)), drills + [drill];
    forall i | 0 <= i < |all| ensures InPhase(t, i, Holding) && t.holders[i].drill == all[i] && all[i] in t.inflight {
      assert i < |drills| ==> InPhase(s, i, Holding) && all[i] == drills[i];
    }
    assert forall d :: d in drills ==> d in all;
    assert all[|drills|] == drill;
  }

  lemma AcquireNext(drills: seq<string>, drill: string)
    ensures AcquireAll(drills + [drill]) == AcquireAll(drills) + [TryAcquire(|drills|, drill)]
  {
  }

  lemma PlayNext(s: State, acts: seq<Action>, a: Action)
    ensures Play(s, acts + [a]) == Apply(Play(s, acts), a)
  {
    assert (acts + [a])[..|acts|] == acts;
  }

  predicate Different(drills: seq<string>) {
    forall i, j :: 0 <= i < j < |drills| ==> drills[i] != drills[j]
  }

  lemma DifferentNext(drills: seq<string>, drill: string)
    requires Different(drills + [drill])
    ensures Different(drills) && drill !in drills
  {
    var all := drills + [drill];
    assert all[|drills|] == drill && forall i :: 0 <= i < |drills| ==> all[i] == drills[i];
  }

  /** As many different drills as the concurrency allows are all granted on a new gate. */
  lemma {:induction false} ConcurrencyIsUsable(concurrency: int, drills: seq<string>)
    requires |drills| <= concurrency && Different(drills)
    ensures AllHeld(Play(NewGate(concurrency), AcquireAll(drills)), drills)
    decreases |drills|
  {
    if drills == [] {
      assert AcquireAll(drills) == [];
    } else {
      var rest, last := drills[..|drills| - 1], drills[|drills| - 1];
      assert drills == rest + [last];
      DifferentNext(rest, last);
      ConcurrencyIsUsable(concurrency, rest);
      PlayKeeps(concurrency, AcquireAll(rest));
      OneMoreHeld(Play(NewGate(concurrency), AcquireAll(rest)), rest, last);
      AcquireNext(rest, last);
      PlayNext(NewGate(concurrency), AcquireAll(rest), TryAcquire(|rest|, last));
    }
  }

  /** The gate as it runs: channel occupancy and the in-flight set. `holders` is history. */
  class Gate {
    const cap: nat
    var tokens: nat
    var inflight: set<string>
    ghost var holders: map<nat, Holder>

    ghost function View(): State
      reads this
    {
      State(cap, tokens, inflight, holders)
    }

    constructor (concurrency: int)
      ensures View() == NewGate(concurrency) && Inv(View())
    {
      cap := if concurrency < 1 then 1 else concurrency;
      tokens, inflight, holders := 0, {}, map[];
      new;
      assert MidRelease(View()) == {};
    }

    method TryAcquire(drill: string, ghost h: nat) returns (release: Release?, ok: bool)
      requires Inv(View()) && h !in holders
      modifies this
      ensures View() == Apply(old(View()), Action.TryAcquire(h, drill)) && Inv(View())
      ensures ok <==> Grants(old(View()), drill)
      ensures ok ==> release != null && fresh(release) && release.gate == this && release.drill == drill && release.id == h && release.Valid()
      ensures !ok ==> release == null
    {
      AcquireKeeps(View(), h, drill);
      if drill in inflight {
        return null, false;
      }
      if tokens < cap {
        tokens := tokens + 1;
      } else {
        return null, false;
      }
      inflight := inflight + {drill};
      holders := holders[h := Holder(drill, Holding)];
      release := new Release(this, drill, h);
      ok := true;
    }
  }

  /** The release closure of one acquisition. */
  class Release {
    const gate: Gate
    const drill: string
    ghost const id: nat
    var done: bool

    ghost predicate Valid()
      reads this, gate
    {
      && id in gate.holders && gate.holders[id].drill == drill
      && (done <==> gate.holders[id].phase != Holding)
    }

    constructor (gate: Gate, drill: string, ghost id: nat)
      requires InPhase(gate.View(), id, Holding) && gate.holders[id].drill == drill
      ensures this.gate == gate && this.drill == drill && this.id == id && Valid()
    {
      this.gate, this.drill, this.id, this.done := gate, drill, id, false;
    }

    /** Uninterrupted, a release is its two steps; a second call changes nothing. */
    method Call()
      requires Valid() && Inv(gate.View())
      modifies this, gate
      ensures Valid() && done && Inv(gate.View())
      ensures old(done) ==> gate.View() == old(gate.View())
      ensures !old(done) ==> gate.View() == Apply(Apply(old(gate.View()), ReleaseClaim(id)), ReleaseToken(id))
      ensures !old(done) ==> gate.inflight == old(gate.inflight) - {drill} && gate.tokens == old(gate.tokens) - 1
    {
      if done {
        return;
      }
      done := true;
      ReleaseKeeps(gate.View(), id);
      DeleteClaim();
      ReceiveToken();
    }

    /** Under the lock. */
    method DeleteClaim()
      requires InPhase(gate.View(), id, Holding) && gate.holders[id].drill == drill
      modifies gate
      ensures gate.View() == Apply(old(gate.View()), ReleaseClaim(id))
    {
      gate.inflight := gate.inflight - {drill};
      gate.holders := gate.holders[id := gate.holders[id].(phase := Releasing)];
    }

    /** Outside the lock. */
    method ReceiveToken()
      requires InPhase(gate.View(), id, Releasing) && gate.tokens > 0
      modifies gate
      ensures gate.View() == Apply(old(gate.View()), ReleaseToken(id))
    {
      gate.tokens := gate.tokens - 1;
      gate.holders := gate.holders[id := gate.holders[id].(phase := Released)];
    }
  }
}
