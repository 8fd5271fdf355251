/** The scratch quota: a writer that stops an expanding dump at a byte limit. */
module Quota {

  type Bytes = seq<bv8>

  datatype WriteError = Ok | QuotaExceeded | SinkFailed | ShortWrite

  /** The file being written. An unhealthy sink may write less than asked, with or without an error. */
  class Sink {
    const healthy: bool
    var out: Bytes

    constructor (healthy: bool)
      ensures this.healthy == healthy && out == []
    {
      this.healthy, out := healthy, [];
    }

    method Write(p: Bytes) returns (n: nat, err: WriteError)
      modifies this
      ensures n <= |p| && out == old(out) + p[..n] && (err == Ok || err == SinkFailed)
      ensures healthy ==> n == |p| && err == Ok
    {
      if healthy {
        n, err := |p|, Ok;
      } else {
        n :| 0 <= n <= |p|;
        var failed: bool := *;
        err := if failed then SinkFailed else Ok;
      }
      out := out + p[..n];
    }
  }

  class LimitedWriter {
    const w: Sink
    var remaining: int
    ghost const quota: nat
    ghost const before: Bytes  // what the sink held at the start

    /** Never negative, and always the quota minus what was written. */
    ghost predicate Valid()
      reads this, w
    {
      0 <= remaining && before <= w.out && remaining + |w.out| - |before| == quota
    }

    constructor (w: Sink, quota: nat)
      ensures Valid() && this.w == w && this.quota == quota && before == w.out && remaining == quota
    {
      this.w, this.quota, this.before, this.remaining := w, quota, w.out, quota;
    }

    method Write(p: Bytes) returns (n: nat, err: WriteError)
      requires Valid()
      modifies this, w
      ensures Valid() && n <= |p| && w.out == old(w.out) + p[..n] && remaining == old(remaining) - n
      ensures err == QuotaExceeded <==> old(remaining) < |p|
      ensures w.healthy ==> n == (if |p| <= old(remaining) then |p| else old(remaining))
      ensures w.healthy ==> err == Ok || err == QuotaExceeded
    {
      if |p| > remaining {
        var ignored;
        n, ignored := w.Write(p[..remaining]);
        remaining := remaining - n;
        return n, QuotaExceeded;
      }
      n, err := w.Write(p);
      remaining := remaining - n;
    }
  }

  function Concat(chunks: seq<Bytes>): Bytes {
    if chunks == [] then [] else Concat(chunks[..|chunks| - 1]) + chunks[|chunks| - 1]
  }

  /** The chunks, end to end. */
  lemma {:induction false} ConcatAdds(a: seq<Bytes>, b: seq<Bytes>)
    ensures Concat(a + b) == Concat(a) + Concat(b)
    ensures forall c :: Concat([c]) == c
    decreases |b|
  {
    forall c ensures Concat([c]) == c {
      assert [c][..0] == [];
    }
    if b == [] {
      assert a + b == a;
    } else {
      ConcatAdds(a, b[..|b| - 1]);
      assert (a + b)[..|a + b| - 1] == a + b[..|b| - 1];
    }
  }

  lemma {:induction false} ConcatPrefix(chunks: seq<Bytes>, k: nat)
    requires k <= |chunks|
    ensures Concat(chunks[..k]) <= Concat(chunks)
    decreases |chunks| - k
  {
    if k < |chunks| {
      ConcatPrefix(chunks, k + 1);
      assert chunks[..k + 1][..k] == chunks[..k];
    } else {
      assert chunks[..k] == chunks;
    }
  }

  /** io.Copy over a limited writer: chunk by chunk until the first error or short write. What lands
      in the sink is a prefix of the input no longer than the quota; with a sink that does not fail,
      the copy succeeds exactly when the input fits, and otherwise fills the quota to the byte. */
  method Copy(lw: LimitedWriter, chunks: seq<Bytes>) returns (err: WriteError)
    requires lw.Valid() && lw.w.out == lw.before
    modifies lw, lw.w
    ensures lw.Valid() && |lw.w.out| - |lw.before| <= lw.quota
    ensures lw.w.out <= lw.before + Concat(chunks)
    ensures err == Ok ==> lw.w.out == lw.before + Concat(chunks)
    ensures lw.w.healthy ==> (err == Ok <==> |Concat(chunks)| <= lw.quota)
    ensures lw.w.healthy && err != Ok ==> err == QuotaExceeded && lw.w.out == lw.before + Concat(chunks)[..lw.quota]
  {
    var k := 0;
    ghost var all := Concat(chunks);
    while k < |chunks|
      invariant 0 <= k <= |chunks| && lw.Valid() && lw.w.out == lw.before + Concat(chunks[..k])
    {
      ConcatPrefix(chunks, k);
      ConcatPrefix(chunks, k + 1);
      assert chunks[..k + 1][..k] == chunks[..k];
      ghost var sofar := Concat(chunks[..k]);
      assert sofar + chunks[k] <= all;
      var n, e := lw.Write(chunks[k]);
      assert lw.w.out == lw.before + (sofar + chunks[k][..n]);
      PrefixChunk(all, sofar, chunks[k], n);
      if e != Ok {
        return e;
      }
      if n != |chunks[k]| {
        return ShortWrite;
      }
      k := k + 1;
    }
    assert chunks[..k] == chunks;
    err := Ok;
  }

  lemma PrefixChunk(all: Bytes, sofar: Bytes, chunk: Bytes, n: nat)
    requires n <= |chunk| && sofar + chunk <= all
    ensures sofar + chunk[..n] == all[..|sofar| + n]
  {
    assert (sofar + chunk)[..|sofar| + n] == sofar + chunk[..n];
  }

  /** quotaWriter with no limit hands back the sink itself. */
  method Stage(sink: Sink, maxBytes: int, chunks: seq<Bytes>) returns (err: WriteError)
    requires sink.out == []
    modifies sink
    ensures sink.out <= Concat(chunks)
    ensures maxBytes > 0 ==> |sink.out| <= maxBytes
    ensures err == Ok ==> sink.out == Concat(chunks)
    ensures sink.healthy ==> (err == Ok <==> maxBytes <= 0 || |Concat(chunks)| <= maxBytes)
  {
    if maxBytes > 0 {
      var lw := new LimitedWriter(sink, maxBytes);
      err := Copy(lw, chunks);
      assert lw.before + Concat(chunks) == Concat(chunks);
      return;
    }
    var k := 0;
    while k < |chunks|
      invariant 0 <= k <= |chunks| && sink.out == Concat(chunks[..k])
    {
      ConcatPrefix(chunks, k);
      ConcatPrefix(chunks, k + 1);
      assert chunks[..k + 1][..k] == chunks[..k];
      ghost var sofar := Concat(chunks[..k]);
      var n, e := sink.Write(chunks[k]);
      PrefixChunk(Concat(chunks), sofar, chunks[k], n);
      if e != Ok {
        return e;
      }
      if n != |chunks[k]| {
        return ShortWrite;
      }
      k := k + 1;
    }
    assert chunks[..k] == chunks;
    err := Ok;
  }
}
