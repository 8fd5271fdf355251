/** The alerter as it runs: the stale flags and the digest mark, updated in place. */
module AlerterState {
  import opened Common
  import opened Schedule
  import opened Staleness
  import opened Digest

  /** What a sweep reads about one drill: its SLA and its headline proof. */
  datatype DrillProof = DrillProof(name: string, maxProofAge: int, proven: Time)

  predicate IsStale(d: DrillProof, now: Time) {
    Stale(d.maxProofAge, d.proven, now)
  }

  predicate NamesDistinct(drills: seq<DrillProof>) {
    forall i, j :: 0 <= i < j < |drills| ==> drills[i].name != drills[j].name
  }

  /** The drills that crossed their SLA and were not alerted yet, in sweep order. */
  function Crossed(drills: seq<DrillProof>, flagged: set<string>, now: Time): seq<string> {
    if drills == [] then []
    else
      var d := drills[|drills| - 1];
      Crossed(drills[..|drills| - 1], flagged, now) + if IsStale(d, now) && d.name !in flagged then [d.name] else []
  }

  lemma {:induction false} CrossedExactly(drills: seq<DrillProof>, flagged: set<string>, now: Time)
    requires NamesDistinct(drills)
    ensures var r := Crossed(drills, flagged, now);
            && (forall name :: name in r <==>
                  exists i :: 0 <= i < |drills| && drills[i].name == name && Stale(drills[i].maxProofAge, drills[i].proven, now) && name !in flagged)
            && (forall a, b :: 0 <= a < b < |r| ==> r[a] != r[b])
    decreases |drills|
  {
    if drills != [] {
      var n := |drills| - 1;
      var d, r := drills[n], Crossed(drills[..n], flagged, now);
      CrossedExactly(drills[..n], flagged, now);
      forall name | name in r ensures name != d.name {
        var i :| 0 <= i < n && drills[..n][i].name == name;
      }
      forall name ensures name in Crossed(drills, flagged, now) <==>
          exists i :: 0 <= i < |drills| && drills[i].name == name && Stale(drills[i].maxProofAge, drills[i].proven, now) && name !in flagged
      {
        if name in r {
          var i :| 0 <= i < n && drills[..n][i].name == name && Stale(drills[..n][i].maxProofAge, drills[..n][i].proven, now);
          assert drills[i].name == name;
        }
        if i :| 0 <= i < n && drills[i].name == name && Stale(drills[i].maxProofAge, drills[i].proven, now) && name !in flagged {
          assert drills[..n][i].name == name;
        }
      }
    }
  }

  class Alerter {
    const digest: Next
    const digestEnabled: bool
    var stale: set<string>
    var digestMark: Time
    ghost const start: Time
    ghost var checks: seq<Time>  // the times the digest was considered at
    var digests: nat             // how many digests were dispatched

    ghost predicate Valid()
      reads this
    {
      digestMark == MarkAfter(digest, start, checks) && digests == |Sent(digest, start, checks)|
    }

    constructor (digest: Next, digestEnabled: bool, now: Time)
      ensures Valid() && stale == {} && start == now && checks == [] && digests == 0
      ensures this.digest == digest && this.digestEnabled == digestEnabled
    {
      this.digest, this.digestEnabled, this.start := digest, digestEnabled, now;
      stale, digestMark, checks, digests := {}, now, [], 0;
    }

    /** One uninterrupted sweep alerts exactly the drills that crossed their SLA since their last
        alert, once each, and leaves the flags saying which of the swept drills are stale. */
    method SweepStale(drills: seq<DrillProof>, now: Time) returns (alerted: seq<string>)
      requires Valid() && NamesDistinct(drills)
      modifies this`stale
      ensures Valid() && alerted == Crossed(drills, old(stale), now)
      ensures forall name :: name in alerted <==>
                exists i :: 0 <= i < |drills| && drills[i].name == name && Stale(drills[i].maxProofAge, drills[i].proven, now) && name !in old(stale)
      ensures forall a, b :: 0 <= a < b < |alerted| ==> alerted[a] != alerted[b]
      ensures forall i :: 0 <= i < |drills| ==> (drills[i].name in stale <==> Stale(drills[i].maxProofAge, drills[i].proven, now))
      ensures forall name :: (forall i :: 0 <= i < |drills| ==> drills[i].name != name) ==> (name in stale <==> name in old(stale))
    {
      alerted := [];
      for k := 0 to |drills|
        invariant alerted == Crossed(drills[..k], old(stale), now)
        invariant forall i :: 0 <= i < k ==> (drills[i].name in stale <==> IsStale(drills[i], now))
        invariant forall name :: (forall i :: 0 <= i < k ==> drills[i].name != name) ==> (name in stale <==> name in old(stale))
      {
        var d := drills[k];
        var isStale, already := IsStale(d, now), d.name in stale;
        assert already <==> d.name in old(stale);
        assert drills[..k + 1][..k] == drills[..k];
        if isStale && !already {
          stale := stale + {d.name};
          alerted := alerted + [d.name];
        } else if !isStale && already {
          stale := stale - {d.name};
        }
      }
      assert drills[..|drills|] == drills;
      CrossedExactly(drills, old(stale), now);
    }

    /** A completion that no sweep interrupts. A passing run leaves its drill's flag down; any other
        verdict leaves every flag as it was. With sweeps in between, see PassLeavesFlagExactly. */
    method AfterRun(drill: string, status: Verdict, prev: Option<Verdict>) returns (event: Option<Event>)
      requires Valid()
      modifies this`stale
      ensures Valid() && event == ClassifyRun(prev, status, drill in old(stale))
      ensures status == Pass ==> stale == old(stale) - {drill}
      ensures status != Pass ==> stale == old(stale)
      ensures status == Fail ==> event == Some(FailEvent)
      ensures status == Error ==> event == Some(ErrorEvent)
      ensures status == Pass ==>
                event == if drill in old(stale) || prev == Some(Fail) || prev == Some(Error) then Some(RecoverEvent) else None
    {
      var wasStale := drill in stale;
      event := ClassifyRun(prev, status, wasStale);
      if event.None? {
        return;
      }
      if status == Pass {
        stale := stale - {drill};
      }
    }

    method MaybeDigest(now: Time) returns (sent: bool)
      requires Valid()
      modifies this`digestMark, this`checks, this`digests
      ensures Valid()
      ensures checks == old(checks) + if digestEnabled then [now] else []
      ensures sent <==> digestEnabled && digest(old(digestMark)) <= now
      ensures digests == old(digests) + if sent then 1 else 0
    {
      if !digestEnabled {
        return false;
      }
      assert (checks + [now])[..|checks|] == checks;
      sent := digest(digestMark) <= now;
      if sent {
        digestMark := now;
        digests := digests + 1;
      }
      checks := checks + [now];
    }
  }
}
