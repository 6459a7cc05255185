/** Lists of byte buffers read as one concatenation: the segments of a
    scatter-gather list, or the user buffers named by a list of iovecs. */
module Buffers {

  newtype byte = b: int | 0 <= b < 256

  /** Separate memory areas: no two entries name the same one. */
  ghost predicate Separate(bufs: seq<array<byte>>) {
    forall i, j :: 0 <= i < j < |bufs| ==> bufs[i] != bufs[j]
  }

  ghost predicate Apart(a: seq<array<byte>>, b: seq<array<byte>>) {
    forall i, j :: 0 <= i < |a| && 0 <= j < |b| ==> a[i] != b[j]
  }

  /** Where buffer `i` starts in the concatenation. */
  ghost function Start(bufs: seq<array<byte>>, i: nat): nat
    requires i <= |bufs|
  {
    if i == 0 then 0 else Start(bufs, i - 1) + bufs[i - 1].Length
  }

  ghost function Total(bufs: seq<array<byte>>): nat {
    Start(bufs, |bufs|)
  }

  ghost function Contents(bufs: seq<array<byte>>): (ss: seq<seq<byte>>)
    reads bufs
    ensures |ss| == |bufs| && forall i :: 0 <= i < |ss| ==> ss[i] == bufs[i][..]
  {
    seq(|bufs|, i requires 0 <= i < |bufs| reads bufs => bufs[i][..])
  }

  /** The bytes of the first `n` runs, in order. */
  function Concat(ss: seq<seq<byte>>, n: nat): seq<byte>
    requires n <= |ss|
  {
    if n == 0 then [] else Concat(ss, n - 1) + ss[n - 1]
  }

  ghost function Flat(bufs: seq<array<byte>>): (s: seq<byte>)
    reads bufs
    ensures |s| == Total(bufs)
  {
    ConcatLength(bufs, |bufs|);
    Concat(Contents(bufs), |bufs|)
  }

  /** `s` with `chunk` written over it at `pos`. */
  function Splice(s: seq<byte>, pos: nat, chunk: seq<byte>): (r: seq<byte>)
    requires pos + |chunk| <= |s|
    ensures |r| == |s|
  {
    s[..pos] + chunk + s[pos + |chunk|..]
  }

  lemma ConcatLength(bufs: seq<array<byte>>, n: nat)
    requires n <= |bufs|
    ensures |Concat(Contents(bufs), n)| == Start(bufs, n)
  {
    if n > 0 { ConcatLength(bufs, n - 1); }
  }

  lemma StartZero(bufs: seq<array<byte>>)
    ensures Start(bufs, 0) == 0
  {}

  lemma StartStep(bufs: seq<array<byte>>, i: nat)
    requires i < |bufs|
    ensures Start(bufs, i + 1) == Start(bufs, i) + bufs[i].Length
  {}

  lemma StartMonotone(bufs: seq<array<byte>>, i: nat, j: nat)
    requires i <= j <= |bufs|
    ensures Start(bufs, i) <= Start(bufs, j)
  {
    if i < j { StartMonotone(bufs, i, j - 1); }
  }

  /** A chunk of one run is a slice of the concatenation. */
  lemma {:induction false} ChunkIsSlice(ss: seq<seq<byte>>, n: nat, i: nat, from: nat, len: nat)
    requires i < n <= |ss| && from + len <= |ss[i]|
    ensures |Concat(ss, i)| + from + len <= |Concat(ss, n)|
    ensures Concat(ss, n)[|Concat(ss, i)| + from..|Concat(ss, i)| + from + len] == ss[i][from..from + len]
  {
    var p, before, last := |Concat(ss, i)| + from, Concat(ss, n - 1), ss[n - 1];
    assert Concat(ss, n) == before + last;
    if i < n - 1 {
      ChunkIsSlice(ss, n - 1, i, from, len);
      hide Concat;
      assert (before + last)[p..p + len] == before[p..p + len];
    } else {
      hide Concat;
      assert (before + last)[p..p + len] == last[from..from + len];
    }
  }

  lemma SpliceRight(a: seq<byte>, b: seq<byte>, from: nat, chunk: seq<byte>)
    requires from + |chunk| <= |b|
    ensures a + Splice(b, from, chunk) == Splice(a + b, |a| + from, chunk)
  {
    assert (a + b)[..|a| + from] == a + b[..from] && (a + b)[|a| + from + |chunk|..] == b[from + |chunk|..];
  }

  lemma SpliceLeft(a: seq<byte>, b: seq<byte>, from: nat, chunk: seq<byte>)
    requires from + |chunk| <= |a|
    ensures Splice(a, from, chunk) + b == Splice(a + b, from, chunk)
  {
    assert (a + b)[..from] == a[..from] && (a + b)[from + |chunk|..] == a[from + |chunk|..] + b;
  }

  /** Writing into one run splices the concatenation and touches nothing else. */
  lemma {:induction false} WriteIsSplice(ss: seq<seq<byte>>, n: nat, i: nat, from: nat, chunk: seq<byte>)
    requires n <= |ss| && i < |ss| && from + |chunk| <= |ss[i]|
    ensures n <= i ==> Concat(ss[i := Splice(ss[i], from, chunk)], n) == Concat(ss, n)
    ensures i < n ==> |Concat(ss, i)| + from + |chunk| <= |Concat(ss, n)|
    ensures i < n ==>
      Concat(ss[i := Splice(ss[i], from, chunk)], n) == Splice(Concat(ss, n), |Concat(ss, i)| + from, chunk)
  {
    if n > 0 {
      WriteIsSplice(ss, n - 1, i, from, chunk);
      var before, last, p := Concat(ss, n - 1), ss[n - 1], |Concat(ss, i)| + from;
      if i == n - 1 {
        SpliceRight(before, last, from, chunk);
      } else if i < n - 1 {
        SpliceLeft(before, last, p, chunk);
      }
      hide Splice;
    }
  }

  /** `dst` once `n` bytes of `src`, from `q` on, have been laid over it at `p`. */
  function Overlay(dst: seq<byte>, p: nat, src: seq<byte>, q: nat, n: nat): seq<byte> {
    if q + n <= |src| && p + n <= |dst| then Splice(dst, p, src[q..q + n]) else dst
  }

  /** Two overlays laid end to end are one. */
  lemma OverlayExtends(dst: seq<byte>, p: nat, src: seq<byte>, q: nat, m: nat, k: nat)
    requires q + m + k <= |src| && p + m + k <= |dst|
    ensures Overlay(Overlay(dst, p, src, q, m), p + m, src, q + m, k) == Overlay(dst, p, src, q, m + k)
  {
    var a, b := src[q..q + m], src[q + m..q + m + k];
    assert a + b == src[q..q + m + k];
    SpliceExtends(dst, p, a, b);
    hide Splice;
  }

  lemma SpliceExtends(dst: seq<byte>, p: nat, a: seq<byte>, b: seq<byte>)
    requires p + |a| + |b| <= |dst|
    ensures Splice(Splice(dst, p, a), p + |a|, b) == Splice(dst, p, a + b)
  {
    var s := Splice(dst, p, a);
    assert s[..p + |a|] == dst[..p] + a && s[p + |a| + |b|..] == dst[p + |a| + |b|..];
  }

  lemma OverlayBound(dst: seq<byte>, p: nat, src: seq<byte>, q: nat, n: nat)
    ensures |Overlay(dst, p, src, q, n)| == |dst|
  {}

  lemma OverlayNone(dst: seq<byte>, p: nat, src: seq<byte>, q: nat)
    ensures Overlay(dst, p, src, q, 0) == dst
  {}

  /** What was laid over a sequence can be read back from the same place. */
  lemma ReadBack(dst: seq<byte>, p: nat, src: seq<byte>, aim: seq<byte>)
    requires p + |src| <= |dst| && |aim| == |src|
    ensures Overlay(aim, 0, Overlay(dst, p, src, 0, |src|), p, |src|) == src
  {
    assert src[0..|src|] == src;
  }

  lemma OneBuffer(buf: array<byte>)
    ensures Start([buf], 0) == 0 && Total([buf]) == buf.Length && Flat([buf]) == buf[..]
  {
    assert Total([buf]) == Start([buf], 0) + buf.Length;
    assert Concat(Contents([buf]), 1) == Concat(Contents([buf]), 0) + buf[..];
  }

  /** A chunk moved from one list of runs to another extends the overlay of their concatenations. */
  lemma ChunkExtends(dst: seq<seq<byte>>, d: nat, to: nat, src: seq<seq<byte>>, s: nat, from: nat, n: nat,
                     was: seq<byte>, p: nat, q: nat, m: nat)
    requires d < |dst| && s < |src| && to + n <= |dst[d]| && from + n <= |src[s]|
    requires p + m == |Concat(dst, d)| + to && q + m == |Concat(src, s)| + from
    requires |was| == |Concat(dst, |dst|)| && Concat(dst, |dst|) == Overlay(was, p, Concat(src, |src|), q, m)
    ensures p + m + n <= |was| && q + m + n <= |Concat(src, |src|)|
    ensures Concat(dst[d := Splice(dst[d], to, src[s][from..from + n])], |dst|)
         == Overlay(was, p, Concat(src, |src|), q, m + n)
  {
    hide Concat, Splice;
    var data, at := Concat(src, |src|), q + m;
    WriteIsSplice(dst, |dst|, d, to, src[s][from..from + n]);
    ChunkIsSlice(src, |src|, s, from, n);
    assert src[s][from..from + n] == data[at..at + n];
    OverlayBound(was, p, data, q, m);
    assert Concat(dst[d := Splice(dst[d], to, src[s][from..from + n])], |dst|)
        == Overlay(Overlay(was, p, data, q, m), p + m, data, at, n);
    OverlayExtends(was, p, data, q, m, n);
  }

  method Size(bufs: seq<array<byte>>) returns (n: nat)
    ensures n == Total(bufs)
  {
    n := 0;
    for i := 0 to |bufs|
      invariant n == Start(bufs, i)
    {
      n := n + bufs[i].Length;
    }
  }

  /** A copy of `n` bytes between two separate areas that does not fault. */
  method CopyBytes(dst: array<byte>, to: nat, src: array<byte>, from: nat, n: nat)
    requires dst != src
    requires to + n <= dst.Length && from + n <= src.Length
    modifies dst
    ensures dst[..] == Splice(old(dst[..]), to, src[from..from + n])
  {
    forall k | 0 <= k < n {
      dst[to + k] := src[from + k];
    }
  }
}
