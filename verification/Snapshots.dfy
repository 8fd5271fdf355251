/** Newest-first snapshot lists, sorted in place, and the snapshot a level resolves. */
module Snapshots {
  import opened Common

  datatype Snapshot = Snapshot(id: string, time: Time)

  predicate Descending(s: seq<Snapshot>) {
    forall i, j :: 0 <= i < j < |s| ==> s[j].time <= s[i].time
  }

  /** The snapshots taken at time t, in list order. */
  function At(s: seq<Snapshot>, t: Time): seq<Snapshot> {
    if s == [] then [] else At(s[..|s| - 1], t) + if s[|s| - 1].time == t then [s[|s| - 1]] else []
  }

  lemma {:induction false} AtAppend(a: seq<Snapshot>, b: seq<Snapshot>, t: Time)
    ensures At(a + b, t) == At(a, t) + At(b, t)
    decreases |b|
  {
    if b == [] {
      assert a + b == a;
    } else {
      AtAppend(a, b[..|b| - 1], t);
      assert (a + b)[..|a + b| - 1] == a + b[..|b| - 1];
    }
  }

  lemma AtPair(x: Snapshot, y: Snapshot, t: Time)
    requires x.time != y.time
    ensures At([x, y], t) == At([y, x], t)
  {
    assert [x, y][..1] == [x] && [y, x][..1] == [y];
    assert [x][..0] == [] && [y][..0] == [];
    assert At([x], t) == if x.time == t then [x] else [];
    assert At([y], t) == if y.time == t then [y] else [];
  }

  function Swapped(s: seq<Snapshot>, j: nat): seq<Snapshot>
    requires 1 <= j < |s|
  {
    s[j := s[j - 1]][j - 1 := s[j]]
  }

  /** Swapping neighbours of different times keeps every same-time sublist and the contents. */
  lemma SwapKeeps(s: seq<Snapshot>, j: nat, t: Time)
    requires 1 <= j < |s| && s[j - 1].time != s[j].time
    ensures At(Swapped(s, j), t) == At(s, t) && multiset(Swapped(s, j)) == multiset(s)
  {
    var pre, post := s[..j - 1], s[j + 1..];
    var x, y := s[j - 1], s[j];
    assert s == pre + [x, y] + post;
    assert Swapped(s, j) == pre + [y, x] + post;
    AtPair(x, y, t);
    AtAppend(pre + [x, y], post, t);
    AtAppend(pre, [x, y], t);
    AtAppend(pre + [y, x], post, t);
    AtAppend(pre, [y, x], t);
  }

  /** A stable rearrangement: same contents, and equal times keep their order. */
  ghost predicate Stable(s: seq<Snapshot>, t: seq<Snapshot>) {
    multiset(s) == multiset(t) && forall at :: At(s, at) == At(t, at)
  }

  /** The list is sorted up to i except that the element at j may belong further left. */
  ghost predicate OneOut(s: seq<Snapshot>, i: nat, j: nat)
    requires i < |s|
  {
    forall p, q :: 0 <= p < q <= i && q != j ==> s[q].time <= s[p].time
  }

  lemma SwapStep(was: seq<Snapshot>, s: seq<Snapshot>, i: nat, j: nat)
    requires Stable(was, s) && 1 <= j <= i < |s| && OneOut(s, i, j) && s[j].time > s[j - 1].time
    ensures Stable(was, Swapped(s, j)) && OneOut(Swapped(s, j), i, j - 1)
  {
    forall t ensures At(was, t) == At(Swapped(s, j), t) {
      SwapKeeps(s, j, t);
    }
    SwapKeeps(s, j, ZERO_TIME);
  }

  lemma Settled(s: seq<Snapshot>, i: nat, j: nat)
    requires j <= i < |s| && OneOut(s, i, j) && (j > 0 ==> s[j].time <= s[j - 1].time)
    ensures Descending(s[..i + 1])
  {
    forall p, q | 0 <= p < q <= i ensures s[q].time <= s[p].time {
      if q == j && p < j - 1 {
        assert s[j - 1].time <= s[p].time;
      }
    }
  }

  method SortByTimeDesc(a: array<Snapshot>)
    modifies a
    ensures Descending(a[..]) && Stable(old(a[..]), a[..])
  {
    var i := 1;
    while i < a.Length
      invariant 1 <= i && Stable(old(a[..]), a[..])
      invariant Descending(if i <= a.Length then a[..i] else a[..])
    {
      InsertAt(a, i);
      i := i + 1;
    }
    assert i == a.Length ==> a[..i] == a[..];
  }

  /** The inner loop: the element at i moves left past strictly older ones. */
  method InsertAt(a: array<Snapshot>, i: nat)
    requires 1 <= i < a.Length && Descending(a[..i])
    modifies a
    ensures Descending(a[..i + 1]) && Stable(old(a[..]), a[..])
  {
    var j := i;
    assert forall p :: 0 <= p < i ==> a[..i][p] == a[..][p];
    while j > 0 && a[j].time > a[j - 1].time
      invariant 0 <= j <= i && OneOut(a[..], i, j)
      invariant Stable(old(a[..]), a[..])
    {
      SwapStep(old(a[..]), a[..], i, j);
      ghost var s := a[..];
      a[j], a[j - 1] := a[j - 1], a[j];
      assert a[..] == Swapped(s, j);
      j := j - 1;
    }
    Settled(a[..], i, j);
    assert a[..][..i + 1] == a[..i + 1];
  }

  /** resolveSnapshot: the pin when set, else the head of the listing. None is the level's error. */
  function ResolveSnapshot(pin: string, listing: Option<seq<Snapshot>>): Option<Snapshot> {
    if pin != "" then Some(Snapshot(pin, ZERO_TIME))
    else if listing.None? || listing.value == [] then None
    else Some(listing.value[0])
  }

  /** From an engine's raw list to the level's snapshot: unpinned, none of the repository's snapshots
      is newer, and of the newest ones it is the first the engine listed. */
  method ResolveNewest(pin: string, raw: array<Snapshot>) returns (r: Option<Snapshot>)
    modifies raw
    ensures pin != "" ==> r == Some(Snapshot(pin, ZERO_TIME))
    ensures pin == "" ==> (r.None? <==> raw.Length == 0)
    ensures pin == "" && r.Some? ==>
              && r.value in old(raw[..])
              && (forall k :: 0 <= k < raw.Length ==> old(raw[k]).time <= r.value.time)
              && At(old(raw[..]), r.value.time) != [] && At(old(raw[..]), r.value.time)[0] == r.value
  {
    SortByTimeDesc(raw);
    ghost var was, now := old(raw[..]), raw[..];
    r := ResolveSnapshot(pin, Some(raw[..]));
    if pin == "" && raw.Length > 0 {
      HeadIsFirst(now);
      assert now[0] in multiset(was);
      forall k | 0 <= k < raw.Length ensures was[k].time <= now[0].time {
        assert was[k] in multiset(now);
      }
    }
  }

  lemma {:induction false} HeadIsFirst(s: seq<Snapshot>)
    requires s != []
    ensures At(s, s[0].time) != [] && At(s, s[0].time)[0] == s[0]
    decreases |s|
  {
    if |s| > 1 {
      HeadIsFirst(s[..|s| - 1]);
    } else {
      assert s[..0] == [];
    }
  }
}
