/** What the sample selection means for a listing with distinct paths. */
module Selection {
  import opened Common
  import opened Sorting
  import opened Sample
  import Config

  ghost predicate DistinctPaths(files: seq<FileEntry>) {
    forall i, j :: 0 <= i < j < |files| ==> files[i].path != files[j].path
  }

  lemma PathsAppend(fs: seq<FileEntry>, f: FileEntry)
    ensures Paths(fs + [f]) == Paths(fs) + {f.path}
  {
    forall q ensures q in Paths(fs + [f]) <==> q in Paths(fs) + {f.path} {
      if q in Paths(fs) {
        var g :| g in fs && g.path == q;
        assert g in fs + [f];
      }
      assert f in fs + [f];
    }
  }

  lemma {:induction false} PutKeys(picked: map<string, int>, fs: seq<FileEntry>)
    ensures Put(picked, fs).Keys == picked.Keys + Paths(fs)
    decreases |fs|
  {
    if fs != [] {
      var n := |fs| - 1;
      PutKeys(picked, fs[..n]);
      assert fs == fs[..n] + [fs[n]];
      PathsAppend(fs[..n], fs[n]);
    }
  }

  lemma {:induction false} PutSize(picked: map<string, int>, fs: seq<FileEntry>)
    ensures |Put(picked, fs)| <= |picked| + |fs|
    decreases |fs|
  {
    if fs != [] {
      var n := |fs| - 1;
      PutSize(picked, fs[..n]);
      var m := Put(picked, fs[..n]);
      assert m[fs[n].path := fs[n].size].Keys == m.Keys + {fs[n].path};
    }
  }

  lemma {:induction false} PutValues(fs: seq<FileEntry>, p: string)
    requires p in Put(map[], fs)
    ensures exists f :: f in fs && f.path == p && Put(map[], fs)[p] == f.size
    decreases |fs|
  {
    if fs != [] {
      var n := |fs| - 1;
      if fs[n].path == p {
        assert fs[n] in fs;
      } else {
        PutValues(fs[..n], p);
        var f :| f in fs[..n] && f.path == p && Put(map[], fs[..n])[p] == f.size;
        assert f in fs;
      }
    }
  }

  lemma {:induction false} FilterMembers(files: seq<FileEntry>, includes: seq<string>, f: FileEntry)
    ensures f in Included(files, includes) <==> f in files && f.isFile && UnderSome(f.path, includes)
    ensures f in Pool(files, includes) <==> f in files && f.isFile && !UnderSome(f.path, includes)
    decreases |files|
  {
    if files != [] {
      FilterMembers(files[..|files| - 1], includes, f);
      assert files == files[..|files| - 1] + [files[|files| - 1]];
    }
  }

  lemma {:induction false} PoolDistinct(files: seq<FileEntry>, includes: seq<string>)
    requires DistinctPaths(files)
    ensures DistinctPaths(Pool(files, includes))
    decreases |files|
  {
    if files != [] {
      var n := |files| - 1;
      var rest := Pool(files[..n], includes);
      PoolDistinct(files[..n], includes);
      forall i | 0 <= i < |rest| ensures rest[i].path != files[n].path {
        FilterMembers(files[..n], includes, rest[i]);
        var k :| 0 <= k < n && files[..n][k] == rest[i];
        assert files[k] == rest[i];
      }
    }
  }

  /** The pool entries that sort strictly before f. */
  ghost function Ahead(pool: seq<FileEntry>, f: FileEntry): set<FileEntry> {
    set g | g in pool && Before(g, f)
  }

  lemma {:induction false} DistinctSet(s: seq<FileEntry>)
    requires forall i, j :: 0 <= i < j < |s| ==> s[i] != s[j]
    ensures |set g | g in s| == |s|
    decreases |s|
  {
    if s != [] {
      var n := |s| - 1;
      DistinctSet(s[..n]);
      assert s == s[..n] + [s[n]];
      assert (set g | g in s) == (set g | g in s[..n]) + {s[n]};
      assert s[n] !in s[..n];
    }
  }

  lemma SortedDistinct(pool: seq<FileEntry>)
    requires DistinctPaths(pool)
    ensures var s := Sort(pool, NotAfter);
            && Ordered(s, NotAfter) && |s| == |pool| && (forall g :: g in s <==> g in pool)
            && (forall i, j :: 0 <= i < j < |s| ==> s[i] != s[j])
  {
    NewestOrder();
    SortCorrect(pool, NotAfter);
    var s := Sort(pool, NotAfter);
    forall g ensures g in s <==> g in pool {
      assert g in multiset(s) <==> g in multiset(pool);
    }
    PermutedDistinct(pool, s);
  }

  lemma BeforeOrSame(pool: seq<FileEntry>, f: FileEntry, g: FileEntry)
    requires DistinctPaths(pool) && f in pool && g in pool && f != g
    ensures Before(f, g) || Before(g, f)
  {
    LessTotal(f.path, g.path);
  }

  lemma SubsetSize(a: set<FileEntry>, b: set<FileEntry>)
    requires a <= b
    ensures |a| <= |b|
  {
    assert b == a + (b - a);
  }

  /** The first n of the sorted pool hold every entry that fewer than n others precede. */
  lemma NewestHolds(pool: seq<FileEntry>, n: int, f: FileEntry)
    requires DistinctPaths(pool) && f in pool && |Ahead(pool, f)| < n
    ensures f in Newest(pool, n)
  {
    SortedDistinct(pool);
    var s := Sort(pool, NotAfter);
    var i :| 0 <= i < |s| && s[i] == f;
    if i >= n {
      var top := s[..n];
      DistinctSet(top);
      forall g | g in top ensures g in Ahead(pool, f) {
        var j :| 0 <= j < n && s[j] == g;
        assert NotAfter(g, f);
        assert s[j] != s[i];
        BeforeOrSame(pool, f, g);
      }
      SubsetSize((set g | g in top), Ahead(pool, f));
    } else {
      assert Newest(pool, n)[i] == f;
    }
  }

  lemma ChosenMembers(files: seq<FileEntry>, sample: Option<Config.SampleSpec>, includes: seq<string>, p: Perm, f: FileEntry)
    requires IsPerm(p) && f in Chosen(files, sample, includes, p)
    ensures f in files && f.isFile
  {
    var pool := Pool(files, includes);
    NewestOrder();
    SortCorrect(pool, NotAfter);
    FilterMembers(files, includes, f);
    if f !in Included(files, includes) {
      var n, m := sample.value.newest, sample.value.files;
      if f in Newest(pool, n) {
        assert f in Sort(pool, NotAfter);
        assert f in multiset(Sort(pool, NotAfter));
      } else {
        assert f in Drawn(pool, m, p);
      }
      assert f in pool;
    }
  }

  lemma SamePath(files: seq<FileEntry>, f: FileEntry, g: FileEntry)
    requires DistinctPaths(files) && f in files && g in files && f.path == g.path
    ensures f == g
  {
    var i :| 0 <= i < |files| && files[i] == f;
    var j :| 0 <= j < |files| && files[j] == g;
  }

  /** What is picked is a regular file of the listing, with its own size. */
  lemma PickedIsFile(files: seq<FileEntry>, sample: Option<Config.SampleSpec>, includes: seq<string>, p: Perm, q: string)
    requires IsPerm(p) && q in Put(map[], Chosen(files, sample, includes, p))
    ensures exists f :: f in files && f.path == q && f.isFile && Put(map[], Chosen(files, sample, includes, p))[q] == f.size
  {
    var chosen := Chosen(files, sample, includes, p);
    PutValues(chosen, q);
    var f :| f in chosen && f.path == q && Put(map[], chosen)[q] == f.size;
    ChosenMembers(files, sample, includes, p, f);
  }

  /** Whatever is chosen is picked. */
  lemma ChosenIsPicked(chosen: seq<FileEntry>, f: FileEntry)
    requires f in chosen
    ensures f.path in Put(map[], chosen)
  {
    PutKeys(map[], chosen);
    assert f.path in Paths(chosen);
  }

  /** The M newest files outside the include paths are chosen. */
  lemma NewestChosen(files: seq<FileEntry>, spec: Config.SampleSpec, includes: seq<string>, p: Perm, f: FileEntry)
    requires IsPerm(p) && DistinctPaths(files) && f in files && f.isFile && !UnderSome(f.path, includes)
    requires |Ahead(Pool(files, includes), f)| < spec.newest
    ensures f in Chosen(files, Some(spec), includes, p)
  {
    FilterMembers(files, includes, f);
    PoolDistinct(files, includes);
    NewestHolds(Pool(files, includes), spec.newest, f);
  }

  lemma PickedBound(files: seq<FileEntry>, sample: Option<Config.SampleSpec>, includes: seq<string>, p: Perm)
    requires IsPerm(p)
    ensures |Put(map[], Chosen(files, sample, includes, p))|
         <= |Included(files, includes)| + if sample.None? then 0 else Max0(sample.value.newest) + Max0(sample.value.files)
  {
    PutSize(map[], Chosen(files, sample, includes, p));
  }

  lemma PickedExactly(files: seq<FileEntry>, sample: Option<Config.SampleSpec>, includes: seq<string>, p: Perm, f: FileEntry)
    requires IsPerm(p) && DistinctPaths(files) && f in files && f.path in Put(map[], Chosen(files, sample, includes, p))
    ensures f.isFile && Put(map[], Chosen(files, sample, includes, p))[f.path] == f.size
  {
    PickedIsFile(files, sample, includes, p, f.path);
    var g :| g in files && g.path == f.path && g.isFile && Put(map[], Chosen(files, sample, includes, p))[f.path] == g.size;
    SamePath(files, f, g);
  }

  lemma IncludedArePicked(files: seq<FileEntry>, sample: Option<Config.SampleSpec>, includes: seq<string>, p: Perm, f: FileEntry)
    requires IsPerm(p) && f in files && f.isFile && UnderSome(f.path, includes)
    ensures f.path in Put(map[], Chosen(files, sample, includes, p))
  {
    FilterMembers(files, includes, f);
    ChosenIsPicked(Chosen(files, sample, includes, p), f);
  }

  /** A regular file that no include path covers. */
  predicate InRest(files: seq<FileEntry>, includes: seq<string>, f: FileEntry) {
    f in files && f.isFile && forall i :: 0 <= i < |includes| ==> !Under(f.path, includes[i])
  }

  /** The rest that is newer than f, or as new with a path that sorts first. */
  ghost function NewerRest(files: seq<FileEntry>, includes: seq<string>, f: FileEntry): set<FileEntry> {
    set g | g in files && InRest(files, includes, g) && (g.mtime > f.mtime || (g.mtime == f.mtime && Less(g.path, f.path)))
  }

  lemma RestIsPool(files: seq<FileEntry>, includes: seq<string>, f: FileEntry)
    ensures InRest(files, includes, f) <==> f in Pool(files, includes)
    ensures NewerRest(files, includes, f) == Ahead(Pool(files, includes), f)
  {
    forall g ensures InRest(files, includes, g) <==> g in Pool(files, includes) {
      FilterMembers(files, includes, g);
    }
  }

  /** What the random draw adds: as many different files of the rest as asked for, or all of them, and
      all of it is picked. */
  lemma DrawnMeaning(files: seq<FileEntry>, spec: Config.SampleSpec, includes: seq<string>, p: Perm) returns (drawn: set<FileEntry>)
    requires IsPerm(p) && DistinctPaths(files)
    ensures var rest := set f | f in files && InRest(files, includes, f);
            && drawn <= rest
            && |drawn| == (if spec.files <= 0 then 0 else if spec.files < |rest| then spec.files else |rest|)
    ensures forall f :: f in drawn ==> f.path in Put(map[], Chosen(files, Some(spec), includes, p))
  {
    var pool := Pool(files, includes);
    var some := Drawn(pool, spec.files, p);
    PoolDistinct(files, includes);
    PoolIsRest(files, includes);
    DrawnDistinct(pool, spec.files, p);
    DistinctSet(some);
    drawn := set f | f in some;
    forall f | f in drawn ensures f.path in Put(map[], Chosen(files, Some(spec), includes, p)) && InRest(files, includes, f) {
      RestIsPool(files, includes, f);
      assert f in Chosen(files, Some(spec), includes, p);
      ChosenIsPicked(Chosen(files, Some(spec), includes, p), f);
    }
  }

  lemma PoolIsRest(files: seq<FileEntry>, includes: seq<string>)
    requires DistinctPaths(files)
    ensures |set f | f in files && InRest(files, includes, f)| == |Pool(files, includes)|
  {
    var pool := Pool(files, includes);
    PoolDistinct(files, includes);
    assert forall i, j :: 0 <= i < j < |pool| ==> pool[i] != pool[j] by {
      forall i, j | 0 <= i < j < |pool| ensures pool[i] != pool[j] {
        assert pool[i].path != pool[j].path;
      }
    }
    DistinctSet(pool);
    forall f ensures f in files && InRest(files, includes, f) <==> f in pool {
      RestIsPool(files, includes, f);
    }
    assert (set f | f in files && InRest(files, includes, f)) == (set f | f in pool);
  }

  lemma DrawnDistinct(pool: seq<FileEntry>, n: int, p: Perm)
    requires IsPerm(p) && DistinctPaths(pool)
    ensures var some := Drawn(pool, n, p);
            && |some| == Clip(n, |pool|) && (forall f :: f in some ==> f in pool)
            && forall i, j :: 0 <= i < j < |some| ==> some[i] != some[j]
  {
    var some, perm := Drawn(pool, n, p), p(|pool|);
    forall i, j | 0 <= i < j < |some| ensures some[i] != some[j] {
      assert perm[i] != perm[j];
      assert some[i] == pool[perm[i]] && some[j] == pool[perm[j]];
      DifferentPaths(pool, perm[i], perm[j]);
    }
  }

  lemma DifferentPaths(pool: seq<FileEntry>, i: nat, j: nat)
    requires DistinctPaths(pool) && i < |pool| && j < |pool| && i != j
    ensures pool[i] != pool[j]
  {
    if i < j {
      assert pool[i].path != pool[j].path;
    } else {
      assert pool[j].path != pool[i].path;
    }
  }

  ghost predicate AmongNewest(files: seq<FileEntry>, sample: Option<Config.SampleSpec>, includes: seq<string>, f: FileEntry) {
    sample.Some? && InRest(files, includes, f) && |NewerRest(files, includes, f)| < sample.value.newest
  }

  /** For distinct paths and any permutation: only regular files, with their own sizes; every file
      under an include path; the M newest of the rest; and at most includes + M + N entries. */
  lemma SelectionMeaning(files: seq<FileEntry>, sample: Option<Config.SampleSpec>, includes: seq<string>, p: Perm)
    requires IsPerm(p) && DistinctPaths(files)
    ensures var picked := Put(map[], Chosen(files, sample, includes, p));
            && (forall f :: f in files && f.path in picked ==> f.isFile && picked[f.path] == f.size)
            && (forall q :: q in picked ==> exists f :: f in files && f.path == q)
            && (forall f :: f in files && f.isFile && UnderSome(f.path, includes) ==> f.path in picked)
            && (forall f :: AmongNewest(files, sample, includes, f) ==> f.path in picked)
            && |picked| <= |Included(files, includes)| + if sample.None? then 0 else Max0(sample.value.newest) + Max0(sample.value.files)
  {
    var picked := Put(map[], Chosen(files, sample, includes, p));
    PickedBound(files, sample, includes, p);
    forall f | f in files && f.path in picked ensures f.isFile && picked[f.path] == f.size {
      PickedExactly(files, sample, includes, p, f);
    }
    forall q | q in picked ensures exists f :: f in files && f.path == q {
      PickedIsFile(files, sample, includes, p, q);
    }
    forall f | f in files && f.isFile && UnderSome(f.path, includes) ensures f.path in picked {
      IncludedArePicked(files, sample, includes, p, f);
    }
    forall f | AmongNewest(files, sample, includes, f) ensures f.path in picked {
      RestIsPool(files, includes, f);
      FilterMembers(files, includes, f);
      NewestChosen(files, sample.value, includes, p, f);
      ChosenIsPicked(Chosen(files, sample, includes, p), f);
    }
  }

  /** Nothing else is picked: a picked file outside the include paths is among the newest or drawn. */
  lemma PickedOnly(files: seq<FileEntry>, sample: Option<Config.SampleSpec>, includes: seq<string>, p: Perm, f: FileEntry)
    requires IsPerm(p) && DistinctPaths(files) && f in files && f.path in Put(map[], Chosen(files, sample, includes, p))
    ensures UnderSome(f.path, includes)
         || (sample.Some? && InRest(files, includes, f)
             && (|NewerRest(files, includes, f)| < sample.value.newest || f in Drawn(Pool(files, includes), sample.value.files, p)))
  {
    var chosen := Chosen(files, sample, includes, p);
    PutValues(chosen, f.path);
    var g :| g in chosen && g.path == f.path;
    ChosenMembers(files, sample, includes, p, g);
    SamePath(files, f, g);
    FilterMembers(files, includes, f);
    RestIsPool(files, includes, f);
    if !UnderSome(f.path, includes) && f in Newest(Pool(files, includes), sample.value.newest) {
      PoolDistinct(files, includes);
      NewestOnly(Pool(files, includes), sample.value.newest, f);
    }
  }

  /** The first n of the sorted pool hold no entry that n or more others precede. */
  lemma NewestOnly(pool: seq<FileEntry>, n: int, f: FileEntry)
    requires DistinctPaths(pool) && f in Newest(pool, n)
    ensures f in pool && |Ahead(pool, f)| < n
  {
    SortedDistinct(pool);
    var s := Sort(pool, NotAfter);
    var i :| 0 <= i < |Newest(pool, n)| && Newest(pool, n)[i] == f;
    assert s[i] == f && i < n;
    var before := s[..i];
    LessIrreflexive(f.path);
    forall j | i <= j < |s| ensures !Before(s[j], f) {
      assert j > i ==> NotAfter(s[i], s[j]);
    }
    forall g | g in Ahead(pool, f) ensures g in before {
      var j :| 0 <= j < |s| && s[j] == g;
      assert j < i && before[j] == g;
    }
    DistinctSet(before);
    SubsetSize(Ahead(pool, f), set g | g in before);
  }

  function Max0(n: int): nat {
    if n < 0 then 0 else n
  }
}
