/** Which files a sampled L2 restores. */
module Sample {
  import opened Common
  import opened Sorting
  import Config

  datatype FileEntry = FileEntry(path: string, size: int, mtime: Time, isFile: bool)

  /** Byte order on strings. */
  predicate Less(a: string, b: string) {
    if b == "" then false
    else if a == "" then true
    else a[0] < b[0] || (a[0] == b[0] && Less(a[1..], b[1..]))
  }

  /** a comes before b: it is a proper prefix, or smaller at the first character where they differ. */
  ghost predicate FirstDifference(a: string, b: string, n: int) {
    && 0 <= n <= |a| && n < |b| && a[..n] == b[..n]
    && (n == |a| || a[n] < b[n])
  }

  lemma SameHead(a: string, b: string, n: int)
    requires 0 < n <= |a| && n <= |b| && a[..n] == b[..n]
    ensures a[0] == b[0]
  {
    assert a[..n][0] == a[0] && b[..n][0] == b[0];
  }

  lemma {:induction false} LessExactly(a: string, b: string)
    ensures Less(a, b) <==> exists n :: FirstDifference(a, b, n)
    decreases |a|
  {
    if a == "" || b == "" {
      assert b != "" ==> FirstDifference("", b, 0);
    } else if a[0] != b[0] {
      if a[0] < b[0] {
        assert FirstDifference(a, b, 0);
      }
      forall n | FirstDifference(a, b, n) ensures n == 0 {
        if n > 0 {
          SameHead(a, b, n);
        }
      }
    } else {
      LessExactly(a[1..], b[1..]);
      forall n | FirstDifference(a[1..], b[1..], n) ensures FirstDifference(a, b, n + 1) {
        assert a[..n + 1] == [a[0]] + a[1..][..n] && b[..n + 1] == [b[0]] + b[1..][..n];
      }
      forall n | FirstDifference(a, b, n) ensures n > 0 && FirstDifference(a[1..], b[1..], n - 1) {
        if n > 0 {
          assert a[1..][..n - 1] == a[..n][1..] && b[1..][..n - 1] == b[..n][1..];
        }
      }
    }
  }

  lemma {:induction false} LessTotal(a: string, b: string)
    ensures Less(a, b) || Less(b, a) || a == b
    ensures !(Less(a, b) && Less(b, a))
    ensures !Less(a, a)
    decreases |a| + |b|
  {
    if a != "" && b != "" && a[0] == b[0] {
      LessTotal(a[1..], b[1..]);
      assert a == [a[0]] + a[1..] && b == [b[0]] + b[1..];
    }
    if a != "" {
      LessTotal(a[1..], []);
      LessIrreflexive(a);
    }
  }

  lemma {:induction false} LessIrreflexive(a: string)
    ensures !Less(a, a)
  {
    if a != "" {
      LessIrreflexive(a[1..]);
    }
  }

  lemma {:induction false} LessTransitive(a: string, b: string, c: string)
    requires Less(a, b) && Less(b, c)
    ensures Less(a, c)
  {
    if a != "" && a[0] == b[0] == c[0] {
      LessTransitive(a[1..], b[1..], c[1..]);
    }
  }

  /** Newest first; ties by path. */
  predicate Before(f: FileEntry, g: FileEntry) {
    if f.mtime == g.mtime then Less(f.path, g.path) else f.mtime > g.mtime
  }

  predicate NotAfter(f: FileEntry, g: FileEntry) {
    !Before(g, f)
  }

  predicate PathNotAfter(a: string, b: string) {
    !Less(b, a)
  }

  lemma PathOrder()
    ensures TotalPreorder(PathNotAfter)
  {
    forall x, y ensures PathNotAfter(x, y) || PathNotAfter(y, x) {
      LessTotal(x, y);
    }
    forall x, y, z | PathNotAfter(x, y) && PathNotAfter(y, z) ensures PathNotAfter(x, z) {
      LessTotal(x, y);
      LessTotal(y, z);
      if Less(z, x) {
        if Less(x, y) {
          LessTransitive(z, x, y);
        }
      }
    }
  }

  lemma NewestOrder()
    ensures TotalPreorder(NotAfter)
  {
    PathOrder();
    assert forall x: FileEntry, y: FileEntry :: PathNotAfter(x.path, y.path) || PathNotAfter(y.path, x.path);
    forall x, y, z | NotAfter(x, y) && NotAfter(y, z) ensures NotAfter(x, z) {
      if x.mtime == y.mtime == z.mtime {
        assert PathNotAfter(x.path, y.path) && PathNotAfter(y.path, z.path);
        assert PathNotAfter(x.path, z.path);
      }
    }
  }

  // ---- underAny ----

  function TrimSlash(p: string): string {
    if |p| > 0 && p[|p| - 1] == '/' then p[..|p| - 1] else p
  }

  /** The path is the include path itself or lies below it. */
  predicate Under(path: string, listed: string) {
    var p := TrimSlash(listed);
    path == p || p + "/" <= path
  }

  predicate UnderSome(path: string, includes: seq<string>) {
    exists i :: 0 <= i < |includes| && Under(path, includes[i])
  }

  /** What an include path covers: without its final slash, if it has one, it is the path or a
      directory above it. */
  lemma UnderExactly(path: string, dir: string)
    requires dir == "" || dir[|dir| - 1] != '/'
    ensures Under(path, dir) <==> path == dir || exists below :: path == dir + "/" + below
    ensures Under(path, dir + "/") <==> Under(path, dir)
  {
    assert TrimSlash(dir + "/") == dir;
    if dir + "/" <= path {
      assert path == dir + "/" + path[|dir| + 1..];
    }
  }

  method UnderAny(path: string, includes: seq<string>) returns (r: bool)
    ensures r == UnderSome(path, includes)
  {
    for k := 0 to |includes|
      invariant forall i :: 0 <= i < k ==> !Under(path, includes[i])
    {
      var p := TrimSlash(includes[k]);
      if path == p || p + "/" <= path {
        return true;
      }
    }
    return false;
  }

  // ---- the selection ----

  function Included(files: seq<FileEntry>, includes: seq<string>): seq<FileEntry> {
    if files == [] then []
    else
      var f := files[|files| - 1];
      Included(files[..|files| - 1], includes) + if f.isFile && UnderSome(f.path, includes) then [f] else []
  }

  /** The regular files no include path covers. */
  function Pool(files: seq<FileEntry>, includes: seq<string>): seq<FileEntry> {
    if files == [] then []
    else
      var f := files[|files| - 1];
      Pool(files[..|files| - 1], includes) + if f.isFile && !UnderSome(f.path, includes) then [f] else []
  }

  function Clip(n: int, max: nat): (r: nat)
    ensures r <= max
  {
    if n < 0 then 0 else if n > max then max else n
  }

  function Newest(pool: seq<FileEntry>, n: int): seq<FileEntry> {
    var sorted := Sort(pool, NotAfter);
    sorted[..Clip(n, |sorted|)]
  }

  /** rand.Perm: for each n, some permutation of 0..n. */
  type Perm = nat -> seq<nat>

  ghost predicate IsPerm(p: Perm) {
    forall n: nat :: |p(n)| == n && (forall i :: 0 <= i < n ==> p(n)[i] < n) && (forall i, j :: 0 <= i < j < n ==> p(n)[i] != p(n)[j])
  }

  ghost function Drawn(pool: seq<FileEntry>, n: int, p: Perm): (r: seq<FileEntry>)
    requires IsPerm(p)
  {
    seq(Clip(n, |pool|), i requires 0 <= i < Clip(n, |pool|) => pool[p(|pool|)[i]])
  }

  function Paths(fs: seq<FileEntry>): set<string> {
    set f | f in fs :: f.path
  }

  /** Everything the selection asks for. */
  ghost function Chosen(files: seq<FileEntry>, sample: Option<Config.SampleSpec>, includes: seq<string>, p: Perm): seq<FileEntry>
    requires IsPerm(p)
  {
    var pool := Pool(files, includes);
    Included(files, includes) + if sample.None? then [] else Newest(pool, sample.value.newest) + Drawn(pool, sample.value.files, p)
  }

  function Put(picked: map<string, int>, fs: seq<FileEntry>): map<string, int> {
    if fs == [] then picked
    else Put(picked, fs[..|fs| - 1])[fs[|fs| - 1].path := fs[|fs| - 1].size]
  }

  function Sum(picked: map<string, int>, paths: seq<string>): int
    requires forall i :: 0 <= i < |paths| ==> paths[i] in picked
  {
    if paths == [] then 0 else Sum(picked, paths[..|paths| - 1]) + picked[paths[|paths| - 1]]
  }

  lemma PutNext(picked: map<string, int>, fs: seq<FileEntry>, k: nat)
    requires k < |fs|
    ensures Put(picked, fs[..k + 1]) == Put(picked, fs[..k])[fs[k].path := fs[k].size]
  {
    assert fs[..k + 1][..k] == fs[..k];
  }

  lemma SplitNext(files: seq<FileEntry>, includes: seq<string>, k: nat)
    requires k < |files|
    ensures var f := files[k];
            var inc, pool := Included(files[..k], includes), Pool(files[..k], includes);
            && Included(files[..k + 1], includes) == (if f.isFile && UnderSome(f.path, includes) then inc + [f] else inc)
            && Pool(files[..k + 1], includes) == (if f.isFile && !UnderSome(f.path, includes) then pool + [f] else pool)
  {
    assert files[..k + 1][..k] == files[..k];
  }

  lemma PutOne(picked: map<string, int>, fs: seq<FileEntry>, f: FileEntry)
    ensures Put(picked, fs + [f]) == Put(picked, fs)[f.path := f.size]
  {
    assert (fs + [f])[..|fs|] == fs;
  }

  lemma {:induction false} PutAppend(picked: map<string, int>, a: seq<FileEntry>, b: seq<FileEntry>)
    ensures Put(picked, a + b) == Put(Put(picked, a), b)
    decreases |b|
  {
    if b == [] {
      assert a + b == a;
    } else {
      PutAppend(picked, a, b[..|b| - 1]);
      assert (a + b)[..|a + b| - 1] == a + b[..|b| - 1];
    }
  }

  method SelectSample(files: seq<FileEntry>, sample: Option<Config.SampleSpec>, includes: seq<string>, perm: Perm)
    returns (paths: seq<string>, total: int)
    requires IsPerm(perm)
    ensures var picked := Put(map[], Chosen(files, sample, includes, perm));
            && (forall p :: p in paths <==> p in picked)
            && (forall i, j :: 0 <= i < j < |paths| ==> Less(paths[i], paths[j]))
            && total == Sum(picked, paths)
  {
    var picked: map<string, int> := map[];
    var pool: seq<FileEntry> := [];
    for k := 0 to |files|
      invariant picked == Put(map[], Included(files[..k], includes)) && pool == Pool(files[..k], includes)
    {
      var f := files[k];
      SplitNext(files, includes, k);
      PutOne(map[], Included(files[..k], includes), f);
      if !f.isFile {
        continue;
      }
      var under := UnderAny(f.path, includes);
      if under {
        picked := picked[f.path := f.size];
      } else {
        pool := pool + [f];
      }
    }
    assert files[..|files|] == files;
    if sample.Some? {
      picked := PutNewest(picked, pool, sample.value.newest);
      picked := PutDrawn(picked, pool, sample.value.files, perm);
      PutAppend(map[], Included(files, includes), Newest(pool, sample.value.newest) + Drawn(pool, sample.value.files, perm));
      PutAppend(Put(map[], Included(files, includes)), Newest(pool, sample.value.newest), Drawn(pool, sample.value.files, perm));
    } else {
      assert Included(files, includes) + [] == Included(files, includes);
    }
    paths, total := Collect(picked);
  }

  method PutNewest(picked: map<string, int>, pool: seq<FileEntry>, n: int) returns (r: map<string, int>)
    ensures r == Put(picked, Newest(pool, n))
  {
    var newest := Sort(pool, NotAfter);
    r := picked;
    var i := 0;
    assert newest[..0] == [];
    while i < n && i < |newest|
      invariant 0 <= i <= |newest| && (n >= 0 ==> i <= n) && (n < 0 ==> i == 0) && r == Put(picked, newest[..i])
    {
      PutNext(picked, newest, i);
      r := r[newest[i].path := newest[i].size];
      i := i + 1;
    }
  }

  method PutDrawn(picked: map<string, int>, pool: seq<FileEntry>, n: int, perm: Perm) returns (r: map<string, int>)
    requires IsPerm(perm)
    ensures r == Put(picked, Drawn(pool, n, perm))
  {
    var order := perm(|pool|);
    ghost var drawn := Drawn(pool, |pool|, perm);
    r := picked;
    var i := 0;
    assert drawn[..0] == [];
    while i < n && i < |order|
      invariant 0 <= i <= |order| && (n >= 0 ==> i <= n) && (n < 0 ==> i == 0) && r == Put(picked, drawn[..i])
    {
      var f := pool[order[i]];
      PutNext(picked, drawn, i);
      r := r[f.path := f.size];
      i := i + 1;
    }
    assert drawn[..i] == Drawn(pool, n, perm);
  }

  /** The sum of sizes, piece by piece. */
  lemma {:induction false} SumAdds(picked: map<string, int>, a: seq<string>, b: seq<string>)
    requires (forall i :: 0 <= i < |a| ==> a[i] in picked) && (forall i :: 0 <= i < |b| ==> b[i] in picked)
    ensures Sum(picked, a + b) == Sum(picked, a) + Sum(picked, b)
    ensures forall q :: q in picked ==> Sum(picked, [q]) == picked[q]
    decreases |b|
  {
    forall q | q in picked ensures Sum(picked, [q]) == picked[q] {
      assert [q][..0] == [];
    }
    if b == [] {
      assert a + b == a;
    } else {
      SumAdds(picked, a, b[..|b| - 1]);
      assert (a + b)[..|a + b| - 1] == a + b[..|b| - 1];
    }
  }

  lemma SumRemove(picked: map<string, int>, s: seq<string>, i: nat)
    requires i < |s| && forall j :: 0 <= j < |s| ==> s[j] in picked
    ensures Sum(picked, s) == Sum(picked, s[..i] + s[i + 1..]) + picked[s[i]]
    decreases |s|
  {
    var n := |s| - 1;
    if i < n {
      SumRemove(picked, s[..n], i);
      assert (s[..i] + s[i + 1..])[..n - 1] == s[..n][..i] + s[..n][i + 1..];
    } else {
      assert s[..i] + s[i + 1..] == s[..n];
    }
  }

  lemma RemoveAt(s: seq<string>, i: nat)
    requires i < |s|
    ensures multiset(s[..i] + s[i + 1..]) == multiset(s) - multiset{s[i]}
  {
    assert s == s[..i] + [s[i]] + s[i + 1..];
  }

  lemma {:induction false} SumPermuted(picked: map<string, int>, s: seq<string>, t: seq<string>)
    requires multiset(s) == multiset(t) && (forall j :: 0 <= j < |s| ==> s[j] in picked) && (forall j :: 0 <= j < |t| ==> t[j] in picked)
    ensures Sum(picked, s) == Sum(picked, t)
    decreases |s|
  {
    assert |multiset(s)| == |s| && |multiset(t)| == |t|;
    if s != [] {
      var n := |s| - 1;
      assert s[n] in multiset(t);
      var i :| 0 <= i < |t| && t[i] == s[n];
      var u := t[..i] + t[i + 1..];
      assert forall j :: 0 <= j < |u| ==> u[j] == t[if j < i then j else j + 1];
      assert multiset(s[..n]) == multiset(u) by {
        RemoveAt(t, i);
        RemoveAt(s, n);
        assert s[..n] + s[n + 1..] == s[..n];
      }
      SumRemove(picked, t, i);
      SumPermuted(picked, s[..n], u);
    }
  }

  /** The map's keys, in any order, then sorted; and the sum of its values. */
  method Collect(picked: map<string, int>) returns (paths: seq<string>, total: int)
    ensures (forall p :: p in paths <==> p in picked) && total == Sum(picked, paths)
    ensures forall i, j :: 0 <= i < j < |paths| ==> Less(paths[i], paths[j])
  {
    var rest := picked.Keys;
    var out: seq<string> := [];
    total := 0;
    while rest != {}
      invariant rest <= picked.Keys && (forall p :: p in out <==> p in picked.Keys - rest)
      invariant forall i :: 0 <= i < |out| ==> out[i] in picked && out[i] !in rest
      invariant forall i, j :: 0 <= i < j < |out| ==> out[i] != out[j]
      invariant total == Sum(picked, out)
      decreases |rest|
    {
      var p :| p in rest;
      assert p !in out;
      assert (out + [p])[..|out|] == out;
      out, total, rest := out + [p], total + picked[p], rest - {p};
    }
    paths := Sort(out, PathNotAfter);
    PathOrder();
    SortCorrect(out, PathNotAfter);
    forall p ensures p in paths <==> p in out {
      assert p in multiset(paths) <==> p in multiset(out);
    }
    assert forall i :: 0 <= i < |paths| ==> paths[i] in paths;
    SumPermuted(picked, out, paths);
    PermutedDistinct(out, paths);
    forall i, j | 0 <= i < j < |paths| ensures Less(paths[i], paths[j]) {
      LessTotal(paths[i], paths[j]);
    }
  }
}
