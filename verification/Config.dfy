/** Level configuration and its validation. An accepted configuration leaves the error set empty. */
module Config {
  import opened Common
  import Glob

  datatype SourceType = Dumpdir | Borg | Restic

  datatype L1Config = L1Config(
    nativeCheck: Option<bool>,
    snapshotMaxAge: Option<int>,
    sizeAnomalyPct: Option<int>,
    readDataSubsetPct: Option<int>,
    fileMinBytes: Option<int>,
    compressionTest: Option<bool>,
    maxAge: Option<int>)

  datatype Kind =
    | PathExists | PathAbsent | CanaryFile | HashMatch | NewestFileMaxAge | FileCountTolerance
    | MinTotalBytes | FileCount | Sql | SqlNoError | EntropyAnomaly | Tcp | Exec

  datatype SqlCheck = SqlCheck(query: string, expect_: string)
  datatype FileCountCheck = FileCountCheck(glob: string, minSize: int, expect_: string)

  datatype Check = Check(
    kind: Kind,
    path: string,
    hashMatch: bool,
    tolerancePct: int,
    sql: Option<SqlCheck>,
    sqlNoError: string,
    exec: string,
    fileCount: Option<FileCountCheck>,
    tcpPort: int,
    entropyAnomaly: bool)

  datatype SampleSpec = SampleSpec(files: int, newest: int)
  datatype L2Config = L2Config(mode: string, scope: string, sample: Option<SampleSpec>, includePaths: seq<string>, checks: seq<Check>)
  datatype L3Config = L3Config(extractPath: string, image: string, network: string, load: string, checks: seq<Check>)

  /** Where a finding points; the message is not modelled. */
  datatype Finding = Finding(field: string, index: int)

  class ErrSet {
    var errs: seq<Finding>

    constructor ()
      ensures errs == []
    {
      errs := [];
    }

    method Add(field: string, index: int)
      modifies this
      ensures errs == old(errs) + [Finding(field, index)]
    {
      errs := errs + [Finding(field, index)];
    }
  }

  // ---- L1 ----

  /** Some configured check can fail. */
  predicate HasVerdictCheck(l: L1Config) {
    l.nativeCheck == Some(true) || l.snapshotMaxAge.Some? || l.fileMinBytes.Some? || l.compressionTest == Some(true) || l.maxAge.Some?
  }

  /** No field belongs to another source type. */
  predicate FitsSource(l: L1Config, src: SourceType) {
    match src
    case Dumpdir => l.nativeCheck.None? && l.snapshotMaxAge.None? && l.sizeAnomalyPct.None?
    case _ => l.fileMinBytes.None? && l.compressionTest.None? && l.maxAge.None?
  }

  predicate SubsetOk(l: L1Config, src: SourceType) {
    l.readDataSubsetPct.Some? ==> src == Restic && 1 <= l.readDataSubsetPct.value <= 100 && l.nativeCheck == Some(true)
  }

  predicate L1Valid(l: L1Config, src: SourceType) {
    && FitsSource(l, src) && SubsetOk(l, src)
    && (l.sizeAnomalyPct.Some? ==> 0 <= l.sizeAnomalyPct.value <= 100)
    && HasVerdictCheck(l)
  }

  /** Accepted is exactly: no field of another source type, a data subset between 1 and 100 percent
      that goes with a native restic check, an anomaly threshold between 0 and 100 percent, and some
      check that can fail. */
  method ValidateL1(l: L1Config, src: SourceType, es: ErrSet)
    modifies es
    ensures old(es.errs) <= es.errs && (es.errs == old(es.errs) <==> L1Valid(l, src))
    ensures es.errs == old(es.errs) <==>
              && (src == Dumpdir ==> l.nativeCheck.None? && l.snapshotMaxAge.None? && l.sizeAnomalyPct.None?)
              && (src == Borg || src == Restic ==> l.fileMinBytes.None? && l.compressionTest.None? && l.maxAge.None?)
              && (l.readDataSubsetPct.Some? ==> src == Restic && 1 <= l.readDataSubsetPct.value <= 100 && l.nativeCheck == Some(true))
              && (l.sizeAnomalyPct.Some? ==> 0 <= l.sizeAnomalyPct.value <= 100)
              && (l.nativeCheck == Some(true) || l.snapshotMaxAge.Some? || l.fileMinBytes.Some? || l.compressionTest == Some(true) || l.maxAge.Some?)
  {
    ValidateSourceFields(l, src, es);
    if l.readDataSubsetPct.Some? {
      ValidateSubset(l, src, es);
    }
    if l.sizeAnomalyPct.Some? && (l.sizeAnomalyPct.value < 0 || l.sizeAnomalyPct.value > 100) {
      es.Add("size_anomaly_pct", 1);
    }
    if !HasVerdictCheck(l) {
      es.Add("", 0);
    }
  }

  method ValidateSourceFields(l: L1Config, src: SourceType, es: ErrSet)
    modifies es
    ensures old(es.errs) <= es.errs && (es.errs == old(es.errs) <==> FitsSource(l, src))
  {
    match src {
      case Dumpdir =>
        if l.nativeCheck.Some? { es.Add("native_check", 0); }
        if l.snapshotMaxAge.Some? { es.Add("snapshot_max_age", 0); }
        if l.sizeAnomalyPct.Some? { es.Add("size_anomaly_pct", 0); }
      case _ =>
        if l.fileMinBytes.Some? { es.Add("file_min_bytes", 0); }
        if l.compressionTest.Some? { es.Add("compression_test", 0); }
        if l.maxAge.Some? { es.Add("max_age", 0); }
    }
  }

  method ValidateSubset(l: L1Config, src: SourceType, es: ErrSet)
    requires l.readDataSubsetPct.Some?
    modifies es
    ensures old(es.errs) <= es.errs && (es.errs == old(es.errs) <==> SubsetOk(l, src))
  {
    if src != Restic { es.Add("read_data_subset_pct", 0); }
    var p := l.readDataSubsetPct.value;
    if p < 1 || p > 100 { es.Add("read_data_subset_pct", 1); }
    if l.nativeCheck.None? || !l.nativeCheck.value { es.Add("read_data_subset_pct", 2); }
  }

  // ---- checks ----

  /** The catalog's placement of each kind. */
  predicate PlacedAt(k: Kind, lv: Level) {
    match k
    case Sql => lv == L3
    case SqlNoError => lv == L3
    case Tcp => lv == L3
    case Exec => lv == L2 || lv == L3
    case _ => lv == L2
  }

  predicate PayloadOk(m: Glob.SegmentMatch, c: Check, lv: Level, src: SourceType) {
    match c.kind
    case PathExists => c.path != ""
    case PathAbsent => c.path != ""
    case CanaryFile => c.path != ""
    case HashMatch => !(lv == L2 && src == Dumpdir)
    case FileCountTolerance => 0 <= c.tolerancePct <= 100
    case FileCount =>
      && c.fileCount.Some? && c.fileCount.value.glob != "" && c.fileCount.value.expect_ != ""
      && Glob.ValidSegments(m, Glob.Split(c.fileCount.value.glob))
    case Sql => c.sql.Some? && c.sql.value.query != "" && c.sql.value.expect_ != ""
    case SqlNoError => c.sqlNoError != ""
    case Tcp => 1 <= c.tcpPort <= 65535
    case Exec => c.exec != ""
    case _ => true
  }

  predicate CheckValid(m: Glob.SegmentMatch, c: Check, lv: Level, src: SourceType) {
    PlacedAt(c.kind, lv) && PayloadOk(m, c, lv, src)
  }

  /** Which checks are accepted, kind by kind. */
  ghost predicate Acceptable(m: Glob.SegmentMatch, c: Check, lv: Level, src: SourceType) {
    && (c.kind == PathExists || c.kind == PathAbsent || c.kind == CanaryFile ==> lv == L2 && c.path != "")
    && (c.kind == HashMatch ==> lv == L2 && src != Dumpdir)
    && (c.kind == NewestFileMaxAge || c.kind == MinTotalBytes || c.kind == EntropyAnomaly ==> lv == L2)
    && (c.kind == FileCountTolerance ==> lv == L2 && 0 <= c.tolerancePct <= 100)
    && (c.kind == FileCount ==>
          && lv == L2 && c.fileCount.Some? && c.fileCount.value.glob != "" && c.fileCount.value.expect_ != ""
          && Glob.ValidSegments(m, Glob.Split(c.fileCount.value.glob)))
    && (c.kind == Sql ==> lv == L3 && c.sql.Some? && c.sql.value.query != "" && c.sql.value.expect_ != "")
    && (c.kind == SqlNoError ==> lv == L3 && c.sqlNoError != "")
    && (c.kind == Tcp ==> lv == L3 && 0 < c.tcpPort < 65536)
    && (c.kind == Exec ==> lv != L1 && c.exec != "")
  }

  method ValidateCheck(m: Glob.SegmentMatch, c: Check, i: int, lv: Level, src: SourceType, es: ErrSet)
    modifies es
    ensures old(es.errs) <= es.errs && (es.errs == old(es.errs) <==> CheckValid(m, c, lv, src))
    ensures es.errs == old(es.errs) <==> Acceptable(m, c, lv, src)
  {
    OneIsAcceptable(m, c, lv, src);
    if !PlacedAt(c.kind, lv) { es.Add("level", i); }
    match c.kind {
      case PathExists => if c.path == "" { es.Add("path", i); }
      case PathAbsent => if c.path == "" { es.Add("path", i); }
      case CanaryFile => if c.path == "" { es.Add("path", i); }
      case HashMatch => if lv == L2 && src == Dumpdir { es.Add("hash_match", i); }
      case FileCountTolerance => if c.tolerancePct < 0 || c.tolerancePct > 100 { es.Add("file_count_tolerance_pct", i); }
      case FileCount =>
        if c.fileCount.None? || c.fileCount.value.glob == "" {
          es.Add("file_count glob", i);
        } else {
          var ok := Glob.ValidGlob(m, c.fileCount.value.glob);
          if !ok { es.Add("file_count glob", i); }
        }
        if c.fileCount.Some? && c.fileCount.value.expect_ == "" { es.Add("file_count expect", i); }
      case Sql =>
        if c.sql.None? || c.sql.value.query == "" { es.Add("sql query", i); }
        if c.sql.Some? && c.sql.value.expect_ == "" { es.Add("sql expect", i); }
      case SqlNoError => if c.sqlNoError == "" { es.Add("sql_no_error", i); }
      case Tcp => if c.tcpPort < 1 || c.tcpPort > 65535 { es.Add("tcp", i); }
      case Exec => if c.exec == "" { es.Add("exec", i); }
      case _ =>
    }
  }

  lemma ValidIsAcceptable(m: Glob.SegmentMatch, checks: seq<Check>, lv: Level, src: SourceType)
    ensures ChecksValid(m, checks, lv, src) <==> forall i :: 0 <= i < |checks| ==> Acceptable(m, checks[i], lv, src)
  {
    forall i | 0 <= i < |checks| ensures CheckValid(m, checks[i], lv, src) <==> Acceptable(m, checks[i], lv, src) {
      OneIsAcceptable(m, checks[i], lv, src);
    }
  }

  lemma OneIsAcceptable(m: Glob.SegmentMatch, c: Check, lv: Level, src: SourceType)
    ensures CheckValid(m, c, lv, src) <==> Acceptable(m, c, lv, src)
  {
  }

  predicate ChecksValid(m: Glob.SegmentMatch, checks: seq<Check>, lv: Level, src: SourceType) {
    forall i :: 0 <= i < |checks| ==> CheckValid(m, checks[i], lv, src)
  }

  method ValidateChecks(m: Glob.SegmentMatch, checks: seq<Check>, lv: Level, src: SourceType, es: ErrSet)
    modifies es
    ensures old(es.errs) <= es.errs && (es.errs == old(es.errs) <==> ChecksValid(m, checks, lv, src))
  {
    for k := 0 to |checks|
      invariant old(es.errs) <= es.errs
      invariant es.errs == old(es.errs) <==> ChecksValid(m, checks[..k], lv, src)
    {
      ValidateCheck(m, checks[k], k, lv, src, es);
      assert checks[..k + 1] == checks[..k] + [checks[k]];
      assert ChecksValid(m, checks[..k + 1], lv, src) <==> ChecksValid(m, checks[..k], lv, src) && CheckValid(m, checks[k], lv, src) by {
        assert forall i :: 0 <= i < k ==> checks[..k + 1][i] == checks[..k][i];
      }
    }
    assert checks[..|checks|] == checks;
  }

  // ---- L2 and L3 ----

  predicate RestoreOk(l: L2Config, src: SourceType) {
    if l.mode == "" || l.mode == "copy" then
      && (l.scope == "" || l.scope == "sample" || l.scope == "full")
      && (l.scope == "full" || l.sample.Some? || l.includePaths != [])
      && (l.sample.Some? ==> 0 <= l.sample.value.files && 0 <= l.sample.value.newest)
    else if l.mode == "mount" then
      && src != Dumpdir && (l.scope == "" || l.scope == "full") && l.sample.None? && l.includePaths == []
      && forall i :: 0 <= i < |l.checks| ==> l.checks[i].kind != HashMatch
    else false
  }

  predicate L2Valid(m: Glob.SegmentMatch, l: L2Config, src: SourceType) {
    RestoreOk(l, src) && ChecksValid(m, l.checks, L2, src)
  }

  method ValidateCopy(l: L2Config, src: SourceType, es: ErrSet)
    requires l.mode == "" || l.mode == "copy"
    modifies es
    ensures old(es.errs) <= es.errs && (es.errs == old(es.errs) <==> RestoreOk(l, src))
  {
    if l.scope != "" && l.scope != "sample" && l.scope != "full" { es.Add("restore.scope", 0); }
    if l.scope != "full" && l.sample.None? && |l.includePaths| == 0 { es.Add("restore", 0); }
    if l.sample.Some? {
      if l.sample.value.files < 0 { es.Add("restore.sample.files", 0); }
      if l.sample.value.newest < 0 { es.Add("restore.sample.newest", 0); }
    }
  }

  method ValidateMount(l: L2Config, src: SourceType, es: ErrSet)
    requires l.mode == "mount"
    modifies es
    ensures old(es.errs) <= es.errs && (es.errs == old(es.errs) <==> RestoreOk(l, src))
  {
    if src == Dumpdir { es.Add("restore.mode", 0); }
    if l.scope != "" && l.scope != "full" { es.Add("restore.scope", 0); }
    if l.sample.Some? || |l.includePaths| > 0 { es.Add("restore", 0); }
    for i := 0 to |l.checks|
      invariant old(es.errs) <= es.errs
      invariant es.errs == old(es.errs) <==>
        src != Dumpdir && (l.scope == "" || l.scope == "full") && l.sample.None? && l.includePaths == [] && forall k :: 0 <= k < i ==> l.checks[k].kind != HashMatch
    {
      if l.checks[i].kind == HashMatch { es.Add("hash_match", i); }
    }
  }

  /** Accepted is exactly: a copy of the whole, or of a sample with no negative size or of some include
      paths; or a mount of the whole snapshot of an engine, without hash checks; and checks that are
      acceptable one by one. */
  method ValidateL2(m: Glob.SegmentMatch, l: L2Config, src: SourceType, es: ErrSet)
    modifies es
    ensures old(es.errs) <= es.errs && (es.errs == old(es.errs) <==> L2Valid(m, l, src))
    ensures es.errs == old(es.errs) ==>
              && (l.mode == "" || l.mode == "copy" || l.mode == "mount")
              && (forall i :: 0 <= i < |l.checks| ==> Acceptable(m, l.checks[i], L2, src))
    ensures l.mode == "" || l.mode == "copy" ==>
              (es.errs == old(es.errs) <==>
                && l.scope in {"", "sample", "full"}
                && (l.scope == "full" || l.sample.Some? || l.includePaths != [])
                && (l.sample.Some? ==> l.sample.value.files >= 0 && l.sample.value.newest >= 0)
                && forall i :: 0 <= i < |l.checks| ==> Acceptable(m, l.checks[i], L2, src))
    ensures l.mode == "mount" ==>
              (es.errs == old(es.errs) <==>
                && src != Dumpdir && l.scope in {"", "full"} && l.sample.None? && l.includePaths == []
                && forall i :: 0 <= i < |l.checks| ==> l.checks[i].kind != HashMatch && Acceptable(m, l.checks[i], L2, src))
  {
    if l.mode == "" || l.mode == "copy" {
      ValidateCopy(l, src, es);
    } else if l.mode == "mount" {
      ValidateMount(l, src, es);
    } else {
      es.Add("restore.mode", 1);
    }
    assert es.errs == old(es.errs) <==> RestoreOk(l, src);
    ValidIsAcceptable(m, l.checks, L2, src);
    ValidateChecks(m, l.checks, L2, src, es);
  }

  predicate L3Valid(m: Glob.SegmentMatch, l: L3Config, src: SourceType) {
    && l.image != "" && (l.network == "" || l.network == "none")
    && (l.load == "" || l.load == "auto" || l.load == "pg_restore" || l.load == "psql")
    && (src == Dumpdir || l.extractPath != "")
    && l.checks != []
    && ChecksValid(m, l.checks, L3, src)
  }

  /** Accepted is exactly: an image, no network, a known loader or none, for the engines an extract
      path, and at least one check, each acceptable. */
  method ValidateL3(m: Glob.SegmentMatch, l: L3Config, src: SourceType, es: ErrSet)
    modifies es
    ensures old(es.errs) <= es.errs && (es.errs == old(es.errs) <==> L3Valid(m, l, src))
    ensures es.errs == old(es.errs) <==>
              && l.image != "" && l.network in {"", "none"} && l.load in {"", "auto", "pg_restore", "psql"}
              && (src == Borg || src == Restic ==> l.extractPath != "")
              && |l.checks| > 0 && forall i :: 0 <= i < |l.checks| ==> Acceptable(m, l.checks[i], L3, src)
  {
    ValidIsAcceptable(m, l.checks, L3, src);
    if l.image == "" { es.Add("sandbox.image", 0); }
    if l.network != "" && l.network != "none" { es.Add("sandbox.network", 0); }
    if l.load != "" && l.load != "auto" && l.load != "pg_restore" && l.load != "psql" { es.Add("load", 0); }
    if (src == Borg || src == Restic) && l.extractPath == "" { es.Add("extract_path", 0); }
    if |l.checks| == 0 { es.Add("checks", 0); }
    ValidateChecks(m, l.checks, L3, src, es);
  }
}
