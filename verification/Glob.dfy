/** The file_count glob: segments matched one by one, `**` spanning any number of them. */
module Glob {

  /** The outcome of a match; BadPattern is an error. */
  datatype Match = Yes | No | BadPattern

  /** path.Match: one pattern segment against one path segment. */
  type SegmentMatch = (string, string) -> Match

  const DEPTH := "**"

  /** What path.Match promises about errors: they depend on the pattern alone, and two stars parse. */
  ghost predicate WellBehaved(m: SegmentMatch) {
    && (forall p, a, b :: m(p, a) == BadPattern ==> m(p, b) == BadPattern)
    && (forall a :: m(DEPTH, a) != BadPattern)
  }

  /** matchSegments as a recursion, error cases and search order included. */
  function MatchSegments(m: SegmentMatch, pat: seq<string>, segs: seq<string>): Match
    decreases |pat|, 0
  {
    if pat == [] then (if segs == [] then Yes else No)
    else if pat[0] == DEPTH then
      if |pat| == 1 then Yes else Search(m, pat[1..], segs, 0)
    else if segs == [] then No
    else if m(pat[0], segs[0]) != Yes then m(pat[0], segs[0])
    else MatchSegments(m, pat[1..], segs[1..])
  }

  function Search(m: SegmentMatch, rest: seq<string>, segs: seq<string>, i: nat): Match
    requires i <= |segs|
    decreases |rest|, |segs| - i + 1
  {
    var r := MatchSegments(m, rest, segs[i..]);
    if r != No || i == |segs| then r else Search(m, rest, segs, i + 1)
  }

  /** The loop of the program: literal segments are consumed in place, a `**` tries every suffix. */
  method MatchSegmentsLoop(m: SegmentMatch, pattern: seq<string>, path: seq<string>) returns (r: Match)
    ensures r == MatchSegments(m, pattern, path)
    decreases |pattern|
  {
    var pat, segs := pattern, path;
    while true
      invariant |pat| <= |pattern| && MatchSegments(m, pat, segs) == MatchSegments(m, pattern, path)
      decreases |pat|
    {
      if |pat| == 0 {
        return if |segs| == 0 then Yes else No;
      }
      if pat[0] == DEPTH {
        if |pat| == 1 {
          return Yes;
        }
        var i := 0;
        while i <= |segs|
          invariant 0 <= i <= |segs| + 1
          invariant i <= |segs| ==> Search(m, pat[1..], segs, 0) == Search(m, pat[1..], segs, i)
          invariant i == |segs| + 1 ==> Search(m, pat[1..], segs, 0) == No
        {
          var ok := MatchSegmentsLoop(m, pat[1..], segs[i..]);
          if ok != No {
            return ok;
          }
          i := i + 1;
        }
        return No;
      }
      if |segs| == 0 {
        return No;
      }
      var ok := m(pat[0], segs[0]);
      if ok != Yes {
        return ok;
      }
      pat, segs := pat[1..], segs[1..];
    }
  }

  // ---- the meaning of a pattern ----

  datatype Item = Any | Lit(pattern: string)

  function Anys(n: nat): (r: seq<Item>)
    ensures |r| == n && forall i :: 0 <= i < n ==> r[i] == Any
  {
    seq(n, _ => Any)
  }

  /** Every `**` replaced by as many arbitrary segments as its entry in `counts` says. */
  function Expand(pat: seq<string>, counts: seq<nat>): seq<Item>
    requires |counts| == |pat|
    decreases |pat|
  {
    if pat == [] then []
    else (if pat[0] == DEPTH then Anys(counts[0]) else [Lit(pat[0])]) + Expand(pat[1..], counts[1..])
  }

  /** The items match the path segment by segment. */
  predicate Fits(m: SegmentMatch, items: seq<Item>, segs: seq<string>) {
    |items| == |segs| && forall i :: 0 <= i < |items| ==> items[i].Any? || m(items[i].pattern, segs[i]) == Yes
  }

  ghost predicate FitsWith(m: SegmentMatch, pat: seq<string>, counts: seq<nat>, segs: seq<string>) {
    |counts| == |pat| && Fits(m, Expand(pat, counts), segs)
  }

  ghost predicate Means(m: SegmentMatch, pat: seq<string>, segs: seq<string>) {
    exists counts :: FitsWith(m, pat, counts, segs)
  }

  /** No segment other than `**` is malformed: what validGlob checks with a probe name. */
  predicate ValidSegments(m: SegmentMatch, pat: seq<string>) {
    forall i :: 0 <= i < |pat| && pat[i] != DEPTH ==> m(pat[i], "probe") != BadPattern
  }

  method ValidGlob(m: SegmentMatch, pattern: string) returns (ok: bool)
    ensures ok <==> ValidSegments(m, Split(pattern))
    ensures WellBehaved(m) ==>
              (ok <==> forall i, name :: 0 <= i < |Split(pattern)| && Split(pattern)[i] != "**" ==> m(Split(pattern)[i], name) != BadPattern)
  {
    var segs := Split(pattern);
    for k := 0 to |segs|
      invariant ValidSegments(m, segs[..k])
    {
      if segs[k] == DEPTH {
        continue;
      }
      if m(segs[k], "probe") == BadPattern {
        return false;
      }
    }
    assert segs[..|segs|] == segs;
    return true;
  }

  lemma FitsSplit(m: SegmentMatch, a: seq<Item>, b: seq<Item>, segs: seq<string>)
    ensures Fits(m, a + b, segs) <==> |a| <= |segs| && Fits(m, a, segs[..|a|]) && Fits(m, b, segs[|a|..])
  {
    if Fits(m, a + b, segs) {
      assert forall i :: 0 <= i < |a| ==> (a + b)[i] == a[i];
      assert forall i :: 0 <= i < |b| ==> (a + b)[|a| + i] == b[i];
    }
  }

  /** A pattern that starts with `**` means: some suffix of the path means the rest. */
  lemma MeansDepth(m: SegmentMatch, pat: seq<string>, segs: seq<string>)
    requires pat != [] && pat[0] == DEPTH
    ensures Means(m, pat, segs) <==> exists i :: 0 <= i <= |segs| && Means(m, pat[1..], segs[i..])
  {
    if Means(m, pat, segs) {
      var counts :| FitsWith(m, pat, counts, segs);
      FitsSplit(m, Anys(counts[0]), Expand(pat[1..], counts[1..]), segs);
      assert FitsWith(m, pat[1..], counts[1..], segs[counts[0]..]);
      assert Means(m, pat[1..], segs[counts[0]..]);
    }
    if exists i :: 0 <= i <= |segs| && Means(m, pat[1..], segs[i..]) {
      var i :| 0 <= i <= |segs| && Means(m, pat[1..], segs[i..]);
      var rest :| FitsWith(m, pat[1..], rest, segs[i..]);
      var counts := [i as nat] + rest;
      assert counts[1..] == rest;
      FitsSplit(m, Anys(i), Expand(pat[1..], rest), segs);
      assert FitsWith(m, pat, counts, segs);
    }
  }

  lemma MeansLiteral(m: SegmentMatch, pat: seq<string>, segs: seq<string>)
    requires pat != [] && pat[0] != DEPTH
    ensures Means(m, pat, segs) <==> segs != [] && m(pat[0], segs[0]) == Yes && Means(m, pat[1..], segs[1..])
  {
    if Means(m, pat, segs) {
      var counts :| FitsWith(m, pat, counts, segs);
      FitsSplit(m, [Lit(pat[0])], Expand(pat[1..], counts[1..]), segs);
      assert FitsWith(m, pat[1..], counts[1..], segs[1..]);
    }
    if segs != [] && m(pat[0], segs[0]) == Yes && Means(m, pat[1..], segs[1..]) {
      var rest :| FitsWith(m, pat[1..], rest, segs[1..]);
      var counts := [0 as nat] + rest;
      assert counts[1..] == rest;
      FitsSplit(m, [Lit(pat[0])], Expand(pat[1..], rest), segs);
      assert FitsWith(m, pat, counts, segs);
    }
  }

  lemma MeansEmpty(m: SegmentMatch, segs: seq<string>)
    ensures Means(m, [], segs) <==> segs == []
  {
    if segs == [] {
      assert FitsWith(m, [], [], segs);
    }
  }

  /** For every pattern validGlob accepts: matching never errs, and a path matches exactly when the
      `**`s can be expanded to arbitrary segments so that the pattern fits it segment by segment. */
  lemma {:induction false} GlobCorrect(m: SegmentMatch, pat: seq<string>, segs: seq<string>)
    requires WellBehaved(m) && ValidSegments(m, pat)
    ensures MatchSegments(m, pat, segs) == if Means(m, pat, segs) then Yes else No
    decreases |pat|, 0
  {
    if pat == [] {
      MeansEmpty(m, segs);
    } else if pat[0] == DEPTH {
      MeansDepth(m, pat, segs);
      if |pat| == 1 {
        assert pat[1..] == [];
        MeansEmpty(m, segs[|segs|..]);
        assert Means(m, pat[1..], segs[|segs|..]);
      } else {
        SearchCorrect(m, pat[1..], segs, 0);
      }
    } else {
      MeansLiteral(m, pat, segs);
      if segs != [] {
        assert m(pat[0], segs[0]) != BadPattern;
        GlobCorrect(m, pat[1..], segs[1..]);
      }
    }
  }

  lemma {:induction false} SearchCorrect(m: SegmentMatch, rest: seq<string>, segs: seq<string>, i: nat)
    requires WellBehaved(m) && ValidSegments(m, rest) && i <= |segs|
    ensures Search(m, rest, segs, i) == if exists k :: i <= k <= |segs| && Means(m, rest, segs[k..]) then Yes else No
    decreases |rest|, |segs| - i + 1
  {
    GlobCorrect(m, rest, segs[i..]);
    if i < |segs| {
      SearchCorrect(m, rest, segs, i + 1);
    }
  }

  /** Adjacent `**` segments collapse, wherever they stand. */
  lemma {:induction false} AdjacentDepthsCollapse(m: SegmentMatch, before: seq<string>, after: seq<string>, segs: seq<string>)
    ensures Means(m, before + [DEPTH, DEPTH] + after, segs) <==> Means(m, before + [DEPTH] + after, segs)
    decreases |before|
  {
    var two, one := before + [DEPTH, DEPTH] + after, before + [DEPTH] + after;
    if before == [] {
      assert two[1..] == one;
      MeansDepth(m, two, segs);
      forall i | 0 <= i <= |segs| ensures Means(m, one, segs[i..]) ==> Means(m, one, segs) {
        MeansDepth(m, one, segs[i..]);
        MeansDepth(m, one, segs);
        if Means(m, one, segs[i..]) {
          var k :| 0 <= k <= |segs[i..]| && Means(m, one[1..], segs[i..][k..]);
          assert segs[i..][k..] == segs[i + k..];
        }
      }
      assert segs[0..] == segs;
    } else {
      assert two[1..] == before[1..] + [DEPTH, DEPTH] + after;
      assert one[1..] == before[1..] + [DEPTH] + after;
      if before[0] == DEPTH {
        MeansDepth(m, two, segs);
        MeansDepth(m, one, segs);
        forall i | 0 <= i <= |segs| ensures Means(m, two[1..], segs[i..]) <==> Means(m, one[1..], segs[i..]) {
          AdjacentDepthsCollapse(m, before[1..], after, segs[i..]);
        }
      } else {
        MeansLiteral(m, two, segs);
        MeansLiteral(m, one, segs);
        if segs != [] {
          AdjacentDepthsCollapse(m, before[1..], after, segs[1..]);
        }
      }
    }
  }

  // ---- whole patterns and counting ----

  /** strings.Split(s, "/"). */
  function Split(s: string): (r: seq<string>)
    ensures |r| >= 1
  {
    if s == "" then [""]
    else
      var r := Split(s[1..]);
      if s[0] == '/' then [""] + r else [[s[0]] + r[0]] + r[1..]
  }

  /** The segments with a slash between each two. */
  function Joined(segs: seq<string>): string {
    if segs == [] then "" else if |segs| == 1 then segs[0] else segs[0] + "/" + Joined(segs[1..])
  }

  /** Split cuts at every slash and nowhere else. */
  lemma {:induction false} SplitExactly(s: string)
    ensures Joined(Split(s)) == s && forall i :: 0 <= i < |Split(s)| ==> '/' !in Split(s)[i]
    decreases |s|
  {
    if s != "" {
      SplitExactly(s[1..]);
      var r := Split(s[1..]);
      assert s == [s[0]] + s[1..];
      if s[0] == '/' {
        assert ([""] + r)[1..] == r;
        assert "" + "/" + Joined(r) == s;
      } else {
        JoinedHead(s[0], r);
      }
    }
  }

  lemma JoinedHead(c: char, r: seq<string>)
    requires r != []
    ensures Joined([[c] + r[0]] + r[1..]) == [c] + Joined(r)
  {
    var all := [[c] + r[0]] + r[1..];
    assert all[1..] == r[1..];
    if |r| > 1 {
      assert [c] + r[0] + "/" + Joined(r[1..]) == [c] + (r[0] + "/" + Joined(r[1..]));
    }
  }

  /** The base name is what follows the last slash. */
  lemma {:induction false} BaseExactly(rel: string)
    ensures '/' !in Base(rel) && (rel == Base(rel) || exists dir :: rel == dir + "/" + Base(rel))
    decreases |rel|
  {
    SplitExactly(rel);
    JoinedEndsWithLast(Split(rel));
  }

  lemma {:induction false} JoinedEndsWithLast(segs: seq<string>)
    requires segs != []
    ensures |segs| == 1 ==> Joined(segs) == segs[0]
    ensures |segs| > 1 ==> exists dir :: Joined(segs) == dir + "/" + segs[|segs| - 1]
    decreases |segs|
  {
    if |segs| > 1 {
      var rest := segs[1..];
      JoinedEndsWithLast(rest);
      if |rest| == 1 {
        assert Joined(segs) == segs[0] + "/" + segs[|segs| - 1];
      } else {
        var dir :| Joined(rest) == dir + "/" + rest[|rest| - 1];
        assert Joined(segs) == (segs[0] + "/" + dir) + "/" + segs[|segs| - 1];
      }
    }
  }

  /** A pattern without a slash meets the base name, at any depth; one with a slash the whole path. */
  lemma MatchesBaseOrPath(m: SegmentMatch, pattern: string, rel: string, dir: string, base: string)
    requires '/' !in base && (rel == base || rel == dir + "/" + base)
    ensures '/' !in pattern ==> MatchGlob(m, pattern, rel) == m(pattern, base)
    ensures '/' in pattern && WellBehaved(m) && ValidSegments(m, Split(pattern)) ==>
              MatchGlob(m, pattern, rel) == if Means(m, Split(pattern), Split(rel)) then Yes else No
  {
    BaseExactly(rel);
    if rel == base {
      SplitNoSlash(rel);
    } else {
      SplitLast(dir, base);
    }
    if '/' in pattern && WellBehaved(m) && ValidSegments(m, Split(pattern)) {
      GlobCorrect(m, Split(pattern), Split(rel));
    }
  }

  lemma {:induction false} SplitLast(dir: string, base: string)
    requires '/' !in base
    ensures Base(dir + "/" + base) == base
    decreases |dir|
  {
    var rel := dir + "/" + base;
    if dir == "" {
      SplitNoSlash(base);
      assert rel[1..] == base;
    } else {
      SplitLast(dir[1..], base);
      assert rel[1..] == dir[1..] + "/" + base;
      SplitTwo(dir[1..], base);
    }
  }

  lemma {:induction false} SplitTwo(dir: string, base: string)
    ensures |Split(dir + "/" + base)| >= 2
    decreases |dir|
  {
    var rel := dir + "/" + base;
    if dir == "" {
      assert rel[1..] == base;
    } else {
      SplitTwo(dir[1..], base);
      assert rel[1..] == dir[1..] + "/" + base;
    }
  }

  lemma {:induction false} SplitNoSlash(s: string)
    ensures Split(s) == [s] <==> '/' !in s
    decreases |s|
  {
    if s != "" {
      SplitNoSlash(s[1..]);
      assert s == [s[0]] + s[1..];
      if s[0] != '/' {
        assert Split(s)[0][1..] == Split(s[1..])[0];
      }
    }
  }

  /** The base name of a clean relative path. */
  function Base(rel: string): string {
    var segs := Split(rel);
    segs[|segs| - 1]
  }

  function MatchGlob(m: SegmentMatch, pattern: string, rel: string): Match {
    if '/' !in pattern then m(pattern, Base(rel)) else MatchSegments(m, Split(pattern), Split(rel))
  }

  /** A validated pattern never errs at run time, with or without a slash. */
  lemma ValidatedGlobNeverErrs(m: SegmentMatch, pattern: string, rel: string)
    ensures WellBehaved(m) && ValidSegments(m, Split(pattern)) ==> MatchGlob(m, pattern, rel) != BadPattern
  {
    if WellBehaved(m) && ValidSegments(m, Split(pattern)) {
      if '/' in pattern {
        GlobCorrect(m, Split(pattern), Split(rel));
      } else {
        SplitNoSlash(pattern);
        assert Split(pattern)[0] == pattern;
      }
    }
  }

  /** A step of the directory walk. `walkErr` says that the walk could not get here, `infoErr` that
      the file's size cannot be read. */
  datatype Entry = Entry(rel: string, regular: bool, size: int, walkErr: bool, infoErr: bool)

  /** The error that stops the walk at f, if any. */
  predicate Stops(m: SegmentMatch, glob: string, f: Entry) {
    || f.walkErr
    || (f.regular && (MatchGlob(m, glob, f.rel) == BadPattern || (MatchGlob(m, glob, f.rel) == Yes && f.infoErr)))
  }

  predicate Matching(m: SegmentMatch, glob: string, minSize: int, f: Entry) {
    f.regular && MatchGlob(m, glob, f.rel) == Yes && minSize <= f.size
  }

  function Counted(m: SegmentMatch, glob: string, minSize: int, files: seq<Entry>): seq<Entry> {
    if files == [] then []
    else
      var f := files[|files| - 1];
      Counted(m, glob, minSize, files[..|files| - 1]) + if Matching(m, glob, minSize, f) then [f] else []
  }

  /** The walk counts exactly the regular matching files of sufficient size, and fails exactly when
      some step stops it; for a validated glob, exactly when the walk or a file's info fails. */
  /** The positions of the regular matching files of sufficient size. */
  ghost function Hits(m: SegmentMatch, glob: string, minSize: int, files: seq<Entry>): set<int> {
    set i | 0 <= i < |files| && files[i].regular && MatchGlob(m, glob, files[i].rel) == Yes && minSize <= files[i].size
  }

  lemma HitsNext(m: SegmentMatch, glob: string, minSize: int, files: seq<Entry>, f: Entry)
    ensures |Hits(m, glob, minSize, files + [f])| == |Hits(m, glob, minSize, files)| + if Matching(m, glob, minSize, f) then 1 else 0
  {
    var some, n := Hits(m, glob, minSize, files), |files|;
    forall i ensures i in Hits(m, glob, minSize, files + [f]) <==> i in some || (i == n && Matching(m, glob, minSize, f)) {
      assert 0 <= i < n ==> (files + [f])[i] == files[i];
    }
    assert Hits(m, glob, minSize, files + [f]) == some + if Matching(m, glob, minSize, f) then {n} else {};
  }

  lemma {:induction false} CountedExactly(m: SegmentMatch, glob: string, minSize: int, files: seq<Entry>)
    ensures |Counted(m, glob, minSize, files)| == |Hits(m, glob, minSize, files)|
    decreases |files|
  {
    if files != [] {
      var n := |files| - 1;
      CountedExactly(m, glob, minSize, files[..n]);
      HitsNext(m, glob, minSize, files[..n], files[n]);
      assert files == files[..n] + [files[n]];
    }
  }

  method CountFiles(m: SegmentMatch, glob: string, minSize: int, files: seq<Entry>) returns (count: nat, failed: bool)
    ensures failed <==> exists i :: 0 <= i < |files| && Stops(m, glob, files[i])
    ensures !failed ==> count == |Counted(m, glob, minSize, files)|
    ensures !failed ==>
              count == |set i | 0 <= i < |files| && files[i].regular && MatchGlob(m, glob, files[i].rel) == Yes && minSize <= files[i].size|
    ensures WellBehaved(m) && ValidSegments(m, Split(glob)) ==>
              (failed <==> exists i :: 0 <= i < |files| && (files[i].walkErr || (files[i].regular && files[i].infoErr && MatchGlob(m, glob, files[i].rel) == Yes)))
  {
    forall i | 0 <= i < |files| && WellBehaved(m) && ValidSegments(m, Split(glob)) ensures MatchGlob(m, glob, files[i].rel) != BadPattern {
      ValidatedGlobNeverErrs(m, glob, files[i].rel);
    }
    CountedExactly(m, glob, minSize, files);
    count, failed := 0, false;
    for k := 0 to |files|
      invariant count == |Counted(m, glob, minSize, files[..k])|
      invariant forall i :: 0 <= i < k ==> !Stops(m, glob, files[i])
    {
      assert files[..k + 1][..k] == files[..k];
      if files[k].walkErr {
        return 0, true;
      }
      if !files[k].regular {
        continue;
      }
      var ok := MatchGlob(m, glob, files[k].rel);
      if ok == BadPattern {
        return 0, true;
      }
      if ok == No {
        continue;
      }
      if files[k].infoErr {
        return 0, true;
      }
      if files[k].size < minSize {
        continue;
      }
      count := count + 1;
    }
    assert files[..|files|] == files;
  }
}
