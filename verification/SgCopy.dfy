/** The copy routines between a command's scatter-gather list and the user
    buffers named by a list of iovecs. */
module SgCopy {
  import opened Buffers
  import opened Errors

  const INT_LIMIT: int := 0x8000_0000
  const U32_LIMIT: int := 0x1_0000_0000

  /** Operation codes of the SCSI READ and WRITE families. */
  predicate IsReadWrite(opcode: byte) {
    opcode in {0x08, 0x28, 0xA8, 0x88, 0x0A, 0x2A, 0xAA, 0x8A}
  }

  /** READ and WRITE are the operations 08h and 0Ah of the command groups of 6, 10, 16 and 12 bytes. */
  lemma ReadWriteOpcodes(opcode: byte)
    ensures IsReadWrite(opcode) <==> opcode % 32 in {8, 10} && opcode / 32 in {0, 1, 4, 5}
  {}

  /** The parts of a SCSI command the data path looks at. */
  datatype ScsiCmnd = ScsiCmnd(opcode: byte, bufflen: nat, sg: seq<array<byte>>)

  /** The header of a data request; the iovecs come with it as a list of user buffers. */
  datatype DataRequest = DataRequest(totalIovecLen: nat, offset: nat)

  function Min(a: nat, b: nat): nat { if a <= b then a else b }

  /** How many bytes a transfer moves when nothing faults. */
  ghost function TransferLength(sg: seq<array<byte>>, iov: seq<array<byte>>, offset: nat): nat
    requires offset <= Total(sg)
  {
    Min(Total(sg) - offset, Total(iov))
  }

  ghost predicate Sane(sg: seq<array<byte>>, iov: seq<array<byte>>) {
    && Total(sg) < INT_LIMIT && Total(iov) < INT_LIMIT
    && Separate(sg) && Separate(iov) && Apart(sg, iov) && Apart(iov, sg)
  }

  // ----- Where the walk stands -----

  /** `left_len == 0` starts an entry afresh; otherwise that many bytes of it remain. */
  ghost function Skipped(sg: seq<array<byte>>, sl: nat, leftLen: nat): nat
    requires sl < |sg| && leftLen <= sg[sl].Length
  {
    if leftLen > 0 then sg[sl].Length - leftLen else 0
  }

  /** Where the resume state (`sl_first`, `sl_offset`, `left_len`) points in the
      flattened list. A null `sl_first` is the index one past the last entry.
      Once `sl_offset` has reached the entry count, `sl_first` may be stale. */
  ghost predicate ResumesAt(sg: seq<array<byte>>, slFirst: nat, slOffset: nat, leftLen: nat, pos: nat) {
    || (slOffset == |sg| && leftLen == 0 && pos == Total(sg))
    || (slOffset == slFirst < |sg| && leftLen <= sg[slFirst].Length
        && pos == Start(sg, slFirst) + Skipped(sg, slFirst, leftLen))
  }

  /** Between two iovecs: the first `i` are full, or the list has run out. */
  ghost predicate BetweenIovecs(sg: seq<array<byte>>, iov: seq<array<byte>>, i: nat, slFirst: nat, slOffset: nat,
                                leftLen: nat, offset: nat, copied: nat)
    requires i <= |iov|
  {
    && ResumesAt(sg, slFirst, slOffset, leftLen, offset + copied)
    && (if slOffset < |sg| then copied == Start(iov, i) else copied <= Start(iov, i))
  }

  /** Inside the inner loop: `iovBase` bytes of buffer `i` are done and the walk stands at entry `sl`. */
  ghost predicate Walking(sg: seq<array<byte>>, iov: seq<array<byte>>, i: nat, sl: nat, leftLen: nat, iovBase: nat,
                          offset: nat, copied: nat)
    requires i < |iov|
  {
    && sl <= |sg| && iovBase <= iov[i].Length && copied == Start(iov, i) + iovBase
    && (sl < |sg| ==> leftLen <= sg[sl].Length && offset + copied == Start(sg, sl) + Skipped(sg, sl, leftLen))
    && (sl == |sg| ==> leftLen == 0 && offset + copied == Total(sg))
  }

  /** The offset into an entry and the length of the next chunk. */
  function ChunkAt(slLength: nat, leftLen: nat, iovLeft: nat): (nat, nat) {
    var slData := if 0 < leftLen <= slLength then slLength - leftLen else 0;
    (slData, Min(slLength - slData, iovLeft))
  }

  lemma BeginCopy(sg: seq<array<byte>>, iov: seq<array<byte>>, slFirst: nat, slOffset: nat, leftLen: nat, offset: nat)
    requires ResumesAt(sg, slFirst, slOffset, leftLen, offset)
    ensures BetweenIovecs(sg, iov, 0, slFirst, slOffset, leftLen, offset, 0)
  {}

  lemma BeginIovec(sg: seq<array<byte>>, iov: seq<array<byte>>, i: nat, slFirst: nat, slOffset: nat, leftLen: nat,
                   offset: nat, copied: nat)
    requires i < |iov| && slFirst < |sg| && BetweenIovecs(sg, iov, i, slFirst, slOffset, leftLen, offset, copied)
    ensures slOffset <= |sg|
    ensures slOffset < |sg| ==> slFirst == slOffset && Walking(sg, iov, i, slFirst, leftLen, 0, offset, copied)
  {}

  /** What one chunk does to the walk: it stops inside the entry, at its end, or goes on to the next. */
  lemma AfterChunk(sg: seq<array<byte>>, iov: seq<array<byte>>, i: nat, sl: nat, leftLen: nat, iovBase: nat,
                   offset: nat, copied: nat)
    requires i < |iov| && sl < |sg| && Walking(sg, iov, i, sl, leftLen, iovBase, offset, copied)
    ensures var (slData, n) := ChunkAt(sg[sl].Length, leftLen, iov[i].Length - iovBase);
      var left := (sg[sl].Length - slData - n) - (iov[i].Length - iovBase - n);
      && slData + n <= sg[sl].Length && iovBase + n <= iov[i].Length
      && Start(iov, i) + iovBase == copied && Start(sg, sl) + slData == offset + copied
      && (left > 0 ==> BetweenIovecs(sg, iov, i + 1, sl, sl, left, offset, copied + n))
      && (left <= 0 ==> Walking(sg, iov, i, sl + 1, 0, iovBase + n, offset, copied + n))
      && (left <= 0 && iovBase + n == iov[i].Length ==>
            BetweenIovecs(sg, iov, i + 1, sl + 1, sl + 1, 0, offset, copied + n))
  {
    StartStep(iov, i);
    StartStep(sg, sl);
  }

  /** The inner loop has run out of entries: `sl_offset` is the entry count, whatever `sl_first` says. */
  lemma RunsOut(sg: seq<array<byte>>, iov: seq<array<byte>>, i: nat, slFirst: nat, leftLen: nat, iovBase: nat,
                offset: nat, copied: nat)
    requires i < |iov|
    requires || BetweenIovecs(sg, iov, i, slFirst, |sg|, leftLen, offset, copied)
             || Walking(sg, iov, i, |sg|, leftLen, iovBase, offset, copied)
    ensures BetweenIovecs(sg, iov, i + 1, slFirst, |sg|, leftLen, offset, copied)
  {
    StartStep(iov, i);
  }

  lemma Finished(sg: seq<array<byte>>, iov: seq<array<byte>>, i: nat, slFirst: nat, slOffset: nat, leftLen: nat,
                 offset: nat, copied: nat)
    requires i <= |iov| && BetweenIovecs(sg, iov, i, slFirst, slOffset, leftLen, offset, copied)
    requires i == |iov| || slFirst >= |sg|
    ensures offset <= Total(sg) && copied == TransferLength(sg, iov, offset)
  {
    StartMonotone(iov, i, |iov|);
    if slOffset < |sg| { StartMonotone(sg, slOffset + 1, |sg|); }
  }

  /** The seek over the list: the entry holding byte `offset`, and how much of it remains. */
  method Seek(sg: seq<array<byte>>, offset: nat) returns (sl: nat, slOffset: nat, leftLen: nat)
    requires Total(sg) < INT_LIMIT
    ensures offset >= Total(sg) ==> sl == |sg|
    ensures offset < Total(sg) ==> sl < |sg| && leftLen > 0 && ResumesAt(sg, sl, slOffset, leftLen, offset)
  {
    sl, slOffset, leftLen := 0, 0, 0;
    var seek := 0;
    while sl < |sg|
      invariant sl <= |sg| && seek == Start(sg, sl) <= offset
      invariant slOffset == 0 && leftLen == 0
    {
      StartMonotone(sg, sl + 1, |sg|);
      seek := seek + sg[sl].Length;
      if seek > offset {
        leftLen := seek - offset;
        slOffset := sl;
        return;
      }
      sl := sl + 1;
    }
  }

  // ----- What has been moved -----

  /** The first `copied` bytes of the slice at `offset` have reached the front of `iov`. */
  ghost predicate Delivered(sg: seq<array<byte>>, iov: seq<array<byte>>, was: seq<byte>, data: seq<byte>,
                            offset: nat, copied: nat)
    reads sg, iov
  {
    && Flat(sg) == data && offset + copied <= |data| && copied <= |was| == Total(iov)
    && Flat(iov) == Overlay(was, 0, data, offset, copied)
  }

  /** The first `copied` bytes of `iov` have reached the list at `offset`. */
  ghost predicate Stored(sg: seq<array<byte>>, iov: seq<array<byte>>, was: seq<byte>, data: seq<byte>,
                         offset: nat, copied: nat)
    reads sg, iov
  {
    && Flat(iov) == data && copied <= |data| && offset + copied <= |was| == Total(sg)
    && Flat(sg) == Overlay(was, offset, data, 0, copied)
  }

  /** One chunk copied between two lists, seen on their concatenations: with `m` bytes
      already laid over `was` at `p`, the next `n` bytes follow. */
  method CopyChunk(dst: seq<array<byte>>, d: nat, to: nat, src: seq<array<byte>>, s: nat, from: nat, n: nat,
                   ghost was: seq<byte>, ghost p: nat, ghost data: seq<byte>, ghost q: nat, ghost m: nat)
    requires Separate(dst) && Apart(src, dst)
    requires d < |dst| && s < |src| && to + n <= dst[d].Length && from + n <= src[s].Length
    requires p + m == Start(dst, d) + to && q + m == Start(src, s) + from
    requires Flat(src) == data && |was| == Total(dst) && Flat(dst) == Overlay(was, p, data, q, m)
    modifies dst[d]
    ensures p + m + n <= |was| && q + m + n <= |data|
    ensures Flat(src) == data && Flat(dst) == Overlay(was, p, data, q, m + n)
  {
    hide Overlay, Splice, Concat, Start;
    ghost var before := Contents(dst);
    ConcatLength(dst, d);
    ConcatLength(src, s);
    ChunkExtends(before, d, to, Contents(src), s, from, n, was, p, q, m);
    CopyBytes(dst[d], to, src[s], from, n);
    assert Contents(src) == old(Contents(src));
    assert Contents(dst) == before[d := Splice(before[d], to, old(src[s][from..from + n]))];
  }

  // ----- The whole copy -----

  /** The request is turned away before any byte moves. */
  ghost predicate Refused(sc: ScsiCmnd, req: DataRequest, iov: seq<array<byte>>) {
    || req.offset >= Total(sc.sg) || |iov| == 0
    || (IsReadWrite(sc.opcode) && sc.bufflen != req.totalIovecLen)
  }

  ghost function RefusalCode(sc: ScsiCmnd, iov: seq<array<byte>>, offset: nat): Errno {
    if offset >= Total(sc.sg) || |iov| == 0 then EINVAL else EIO
  }

  /** The verdict on a transfer that moved `copied` bytes without a fault. */
  function LengthCheck(sc: ScsiCmnd, req: DataRequest, copied: nat): (r: Result<nat>)
    ensures r != Err(EFAULT)
  {
    if IsReadWrite(sc.opcode) && copied != req.totalIovecLen then Err(EIO) else Ok(copied)
  }

  /** Of the first `calls` user copies none failed. */
  ghost predicate NoFault(fault: nat -> bool, calls: nat) { forall k: nat :: k < calls ==> !fault(k) }

  /** The transfer moves the whole buffer: from its start, with the announced total equal to the buffer length and
      enough room in the iovecs. */
  ghost predicate WholeBuffer(sc: ScsiCmnd, req: DataRequest, iov: seq<array<byte>>) {
    req.offset == 0 && req.totalIovecLen == sc.bufflen && |iov| > 0 && Total(iov) >= sc.bufflen
  }

  /** A READ or WRITE with honest lengths and something to move. */
  ghost predicate Honest(sc: ScsiCmnd) { IsReadWrite(sc.opcode) && sc.bufflen == Total(sc.sg) > 0 }

  /** Short or long totals are a matter of READ and WRITE only. */
  lemma LengthCheckIs(sc: ScsiCmnd, req: DataRequest)
    ensures forall n: nat ::
      LengthCheck(sc, req, n) == (if IsReadWrite(sc.opcode) && n != req.totalIovecLen then Err(EIO) else Ok(n))
  {}

  /** The two length checks together, on what a transfer without a fault moves. */
  lemma TransferSucceedsIff(sc: ScsiCmnd, req: DataRequest, iov: seq<array<byte>>)
    requires Honest(sc)
    ensures !Refused(sc, req, iov) && LengthCheck(sc, req, TransferLength(sc.sg, iov, req.offset)).Ok?
       <==> WholeBuffer(sc, req, iov)
  {}

  lemma NoFaultYet(fault: nat -> bool)
    ensures NoFault(fault, 0)
  {}

  lemma OneMoreCall(fault: nat -> bool, calls: nat)
    requires NoFault(fault, calls) && !fault(calls)
    ensures NoFault(fault, calls + 1)
  {}

  /** The loops of the copy to the user, from a resume state on. */
  method WalkToIovec(sg: seq<array<byte>>, iov: seq<array<byte>>, ghost offset: nat, fault: nat -> bool,
                     first: nat, firstOffset: nat, firstLeft: nat)
    returns (ok: bool, copied: nat, calls: nat)
    requires Sane(sg, iov) && offset <= Total(sg) && first < |sg|
    requires ResumesAt(sg, first, firstOffset, firstLeft, offset)
    modifies iov
    ensures Flat(sg) == old(Flat(sg)) && Delivered(sg, iov, old(Flat(iov)), old(Flat(sg)), offset, copied)
    ensures NoFault(fault, calls) && (!ok ==> fault(calls)) && (calls == 0 ==> copied == 0)
    ensures ok ==> copied == TransferLength(sg, iov, offset)
  {
    hide Flat, Start, Concat, Overlay, Separate, Apart, ResumesAt, Walking, BetweenIovecs, NoFault;
    NoFaultYet(fault);
    copied, calls := 0, 0;
    ghost var data, was := Flat(sg), Flat(iov);
    OverlayNone(was, 0, data, offset);
    BeginCopy(sg, iov, first, firstOffset, firstLeft, offset);
    var slFirst: nat, slOffset: nat, leftLen: nat := first, firstOffset, firstLeft;
    var i: nat := 0;
    while i < |iov| && slFirst < |sg|
      invariant i <= |iov| && NoFault(fault, calls) && (calls == 0 ==> copied == 0)
      invariant BetweenIovecs(sg, iov, i, slFirst, slOffset, leftLen, offset, copied)
      invariant Delivered(sg, iov, was, data, offset, copied)
    {
      var iovBase: nat, j: nat, sl: nat := 0, 0, slFirst;
      BeginIovec(sg, iov, i, slFirst, slOffset, leftLen, offset, copied);
      while j < |sg| - slOffset
        invariant j <= |sg| - slOffset && sl == slFirst + j && NoFault(fault, calls) && (calls == 0 ==> copied == 0)
        invariant if slOffset == |sg| then BetweenIovecs(sg, iov, i, slFirst, slOffset, leftLen, offset, copied)
                  else slFirst == slOffset && Walking(sg, iov, i, sl, leftLen, iovBase, offset, copied)
        invariant Delivered(sg, iov, was, data, offset, copied)
      {
        if fault(calls) {
          return false, copied, calls;
        }
        AfterChunk(sg, iov, i, sl, leftLen, iovBase, offset, copied);
        var (slData, n) := ChunkAt(sg[sl].Length, leftLen, iov[i].Length - iovBase);
        CopyChunk(iov, i, iovBase, sg, sl, slData, n, was, 0, data, offset, copied);
        OneMoreCall(fault, calls);
        calls := calls + 1;
        iovBase, slData, copied := iovBase + n, slData + n, copied + n;
        var left := (sg[sl].Length - slData) - (iov[i].Length - iovBase);
        if left > 0 {
          leftLen, slFirst := left, sl;
          break;
        }
        leftLen := 0;
        if iovBase >= iov[i].Length {
          slFirst, j := sl + 1, j + 1;
          break;
        }
        j, sl := j + 1, sl + 1;
      }
      if j == |sg| - slOffset && sl == slFirst + j {
        RunsOut(sg, iov, i, slFirst, leftLen, iovBase, offset, copied);
      }
      slOffset := slOffset + j;
      i := i + 1;
    }
    Finished(sg, iov, i, slFirst, slOffset, leftLen, offset, copied);
    ok := true;
  }

  /** The loops of the copy from the user. */
  method WalkFromIovec(sg: seq<array<byte>>, iov: seq<array<byte>>, ghost offset: nat, fault: nat -> bool,
                     first: nat, firstOffset: nat, firstLeft: nat)
    returns (ok: bool, copied: nat, calls: nat)
    requires Sane(sg, iov) && offset <= Total(sg) && first < |sg|
    requires ResumesAt(sg, first, firstOffset, firstLeft, offset)
    modifies sg
    ensures Flat(iov) == old(Flat(iov)) && Stored(sg, iov, old(Flat(sg)), old(Flat(iov)), offset, copied)
    ensures NoFault(fault, calls) && (!ok ==> fault(calls)) && (calls == 0 ==> copied == 0)
    ensures ok ==> copied == TransferLength(sg, iov, offset)
  {
    hide Flat, Start, Concat, Overlay, Separate, Apart, ResumesAt, Walking, BetweenIovecs, NoFault;
    NoFaultYet(fault);
    copied, calls := 0, 0;
    ghost var data, was := Flat(iov), Flat(sg);
    OverlayNone(was, offset, data, 0);
    BeginCopy(sg, iov, first, firstOffset, firstLeft, offset);
    var slFirst: nat, slOffset: nat, leftLen: nat := first, firstOffset, firstLeft;
    var i: nat := 0;
    while i < |iov| && slFirst < |sg|
      invariant i <= |iov| && NoFault(fault, calls) && (calls == 0 ==> copied == 0)
      invariant BetweenIovecs(sg, iov, i, slFirst, slOffset, leftLen, offset, copied)
      invariant Stored(sg, iov, was, data, offset, copied)
    {
      var iovBase: nat, j: nat, sl: nat := 0, 0, slFirst;
      BeginIovec(sg, iov, i, slFirst, slOffset, leftLen, offset, copied);
      while j < |sg| - slOffset
        invariant j <= |sg| - slOffset && sl == slFirst + j && NoFault(fault, calls) && (calls == 0 ==> copied == 0)
        invariant if slOffset == |sg| then BetweenIovecs(sg, iov, i, slFirst, slOffset, leftLen, offset, copied)
                  else slFirst == slOffset && Walking(sg, iov, i, sl, leftLen, iovBase, offset, copied)
        invariant Stored(sg, iov, was, data, offset, copied)
      {
        if fault(calls) {
          return false, copied, calls;
        }
        AfterChunk(sg, iov, i, sl, leftLen, iovBase, offset, copied);
        var (slData, n) := ChunkAt(sg[sl].Length, leftLen, iov[i].Length - iovBase);
        CopyChunk(sg, sl, slData, iov, i, iovBase, n, was, offset, data, 0, copied);
        OneMoreCall(fault, calls);
        calls := calls + 1;
        iovBase, slData, copied := iovBase + n, slData + n, copied + n;
        var left := (sg[sl].Length - slData) - (iov[i].Length - iovBase);
        if left > 0 {
          leftLen, slFirst := left, sl;
          break;
        }
        leftLen := 0;
        if iovBase >= iov[i].Length {
          slFirst, j := sl + 1, j + 1;
          break;
        }
        j, sl := j + 1, sl + 1;
      }
      if j == |sg| - slOffset && sl == slFirst + j {
        RunsOut(sg, iov, i, slFirst, leftLen, iovBase, offset, copied);
      }
      slOffset := slOffset + j;
      i := i + 1;
    }
    Finished(sg, iov, i, slFirst, slOffset, leftLen, offset, copied);
    ok := true;
  }

  /** Kernel to user. `fault` says which of the successive user copies fails; `calls` counts those that did not. */
  method CopySgToIovec(sc: ScsiCmnd, req: DataRequest, iov: seq<array<byte>>, fault: nat -> bool)
    returns (r: Result<nat>, copied: nat, calls: nat)
    requires Sane(sc.sg, iov) && req.offset < U32_LIMIT
    modifies iov
    ensures Flat(sc.sg) == old(Flat(sc.sg))
    ensures Refused(sc, req, iov) ==>
      copied == 0 && Flat(iov) == old(Flat(iov)) && r == Err(RefusalCode(sc, iov, req.offset))
    ensures !Refused(sc, req, iov) ==> Delivered(sc.sg, iov, old(Flat(iov)), old(Flat(sc.sg)), req.offset, copied)
    ensures !Refused(sc, req, iov) && r != Err(EFAULT) ==>
      copied == TransferLength(sc.sg, iov, req.offset) && r == LengthCheck(sc, req, copied)
    ensures NoFault(fault, calls) && (r == Err(EFAULT) ==> fault(calls)) && (calls == 0 ==> copied == 0)
    ensures Honest(sc) && (forall k: nat :: !fault(k)) ==> (r.Ok? <==> WholeBuffer(sc, req, iov))
    ensures !Refused(sc, req, iov) && (forall k: nat :: !fault(k)) ==>
      && copied == Min(Total(sc.sg) - req.offset, Total(iov))
      && r == if IsReadWrite(sc.opcode) && copied != req.totalIovecLen then Err(EIO) else Ok(copied)
    ensures r.Ok? ==> !Refused(sc, req, iov)
  {
    hide Flat, ResumesAt, Separate, Apart, NoFault, LengthCheck, WholeBuffer;
    NoFaultYet(fault);
    if Honest(sc) { TransferSucceedsIff(sc, req, iov); }
    LengthCheckIs(sc, req);
    var slFirst: nat, slOffset: nat, leftLen: nat := Seek(sc.sg, req.offset);
    if slFirst == |sc.sg| || |iov| == 0 {
      return Err(EINVAL), 0, 0;
    }
    if IsReadWrite(sc.opcode) && sc.bufflen != req.totalIovecLen {
      return Err(EIO), 0, 0;
    }
    var ok;
    ok, copied, calls := WalkToIovec(sc.sg, iov, req.offset, fault, slFirst, slOffset, leftLen);
    r := if ok then LengthCheck(sc, req, copied) else Err(EFAULT);
  }

  /** User to kernel, with the same walk. */
  method CopySgFromIovec(sc: ScsiCmnd, req: DataRequest, iov: seq<array<byte>>, fault: nat -> bool)
    returns (r: Result<nat>, copied: nat, calls: nat)
    requires Sane(sc.sg, iov) && req.offset < U32_LIMIT
    modifies sc.sg
    ensures Flat(iov) == old(Flat(iov))
    ensures Refused(sc, req, iov) ==>
      copied == 0 && Flat(sc.sg) == old(Flat(sc.sg)) && r == Err(RefusalCode(sc, iov, req.offset))
    ensures !Refused(sc, req, iov) ==> Stored(sc.sg, iov, old(Flat(sc.sg)), old(Flat(iov)), req.offset, copied)
    ensures !Refused(sc, req, iov) && r != Err(EFAULT) ==>
      copied == TransferLength(sc.sg, iov, req.offset) && r == LengthCheck(sc, req, copied)
    ensures NoFault(fault, calls) && (r == Err(EFAULT) ==> fault(calls)) && (calls == 0 ==> copied == 0)
    ensures Honest(sc) && (forall k: nat :: !fault(k)) ==> (r.Ok? <==> WholeBuffer(sc, req, iov))
    ensures !Refused(sc, req, iov) && (forall k: nat :: !fault(k)) ==>
      && copied == Min(Total(sc.sg) - req.offset, Total(iov))
      && r == if IsReadWrite(sc.opcode) && copied != req.totalIovecLen then Err(EIO) else Ok(copied)
    ensures r.Ok? ==> !Refused(sc, req, iov)
  {
    hide Flat, ResumesAt, Separate, Apart, NoFault, LengthCheck, WholeBuffer;
    NoFaultYet(fault);
    if Honest(sc) { TransferSucceedsIff(sc, req, iov); }
    LengthCheckIs(sc, req);
    var slFirst: nat, slOffset: nat, leftLen: nat := Seek(sc.sg, req.offset);
    if slFirst == |sc.sg| || |iov| == 0 {
      return Err(EINVAL), 0, 0;
    }
    if IsReadWrite(sc.opcode) && sc.bufflen != req.totalIovecLen {
      return Err(EIO), 0, 0;
    }
    var ok;
    ok, copied, calls := WalkFromIovec(sc.sg, iov, req.offset, fault, slFirst, slOffset, leftLen);
    r := if ok then LengthCheck(sc, req, copied) else Err(EFAULT);
  }

  // ----- Flat buffers: the CDB and the sense data -----

  /** A flat kernel buffer to user iovecs; the buffer is a list of one entry. */
  method CopyDataToIovec(from: array<byte>, offset: nat, iov: seq<array<byte>>, fault: nat -> bool)
    returns (r: Result<nat>, copied: nat, calls: nat)
    requires Sane([from], iov) && offset <= from.Length
    modifies iov
    ensures Delivered([from], iov, old(Flat(iov)), old(Flat([from])), offset, copied)
    ensures r != Err(EFAULT) ==> copied == Min(from.Length - offset, Total(iov)) && r == Ok(copied)
    ensures NoFault(fault, calls) && (r == Err(EFAULT) ==> fault(calls)) && (calls == 0 ==> copied == 0)
  {
    hide Flat, Start, Concat, Overlay, Separate, Apart;
    ghost var data, was := Flat([from]), Flat(iov);
    OverlayNone(was, 0, data, offset);
    OneBuffer(from);
    StartZero(iov);
    copied, calls := 0, 0;
    var i, left := 0, from.Length - offset;
    while i < |iov| && left > 0
      invariant 0 <= i <= |iov| && calls == i && NoFault(fault, calls) && left == from.Length - offset - copied
      invariant if left > 0 then copied == Start(iov, i) else copied <= Start(iov, i)
      invariant Delivered([from], iov, was, data, offset, copied)
    {
      if fault(i) {
        return Err(EFAULT), copied, calls;
      }
      StartStep(iov, i);
      var n := Min(iov[i].Length, left);
      CopyChunk(iov, i, 0, [from], 0, offset + copied, n, was, 0, data, offset, copied);
      left, copied, i, calls := left - n, copied + n, i + 1, calls + 1;
    }
    StartMonotone(iov, i, |iov|);
    r := Ok(copied);
  }

  /** User iovecs to a flat kernel buffer. */
  method CopyDataFromIovec(to: array<byte>, offset: nat, iov: seq<array<byte>>, fault: nat -> bool)
    returns (r: Result<nat>, copied: nat, calls: nat)
    requires Sane([to], iov) && offset <= to.Length
    modifies to
    ensures Stored([to], iov, old(Flat([to])), old(Flat(iov)), offset, copied)
    ensures r != Err(EFAULT) ==> copied == Min(to.Length - offset, Total(iov)) && r == Ok(copied)
    ensures NoFault(fault, calls) && (r == Err(EFAULT) ==> fault(calls)) && (calls == 0 ==> copied == 0)
  {
    hide Flat, Start, Concat, Overlay, Separate, Apart;
    ghost var data, was := Flat(iov), Flat([to]);
    OverlayNone(was, offset, data, 0);
    OneBuffer(to);
    StartZero(iov);
    copied, calls := 0, 0;
    var i, left := 0, to.Length - offset;
    while i < |iov| && left > 0
      invariant 0 <= i <= |iov| && calls == i && NoFault(fault, calls) && left == to.Length - offset - copied
      invariant if left > 0 then copied == Start(iov, i) else copied <= Start(iov, i)
      invariant Stored([to], iov, was, data, offset, copied)
    {
      if fault(i) {
        return Err(EFAULT), copied, calls;
      }
      StartStep(iov, i);
      var n := Min(iov[i].Length, left);
      CopyChunk([to], 0, offset + copied, iov, i, 0, n, was, offset, data, 0, copied);
      left, copied, i, calls := left - n, copied + n, i + 1, calls + 1;
    }
    StartMonotone(iov, i, |iov|);
    r := Ok(copied);
  }

  // ----- What a transfer promises -----

  /** Bytes stored at an offset through one fragmentation come back through any other. */
  method WriteThenRead(sc: ScsiCmnd, offset: nat, source: seq<array<byte>>, target: seq<array<byte>>)
    returns (w: Result<nat>, r: Result<nat>)
    requires Sane(sc.sg, source) && Sane(sc.sg, target) && Apart(source, target) && Apart(target, source)
    requires |source| > 0 && |target| > 0 && Total(source) == Total(target)
    requires IsReadWrite(sc.opcode) ==> sc.bufflen == Total(source)
    requires offset < Total(sc.sg) && offset + Total(source) <= Total(sc.sg)
    modifies sc.sg, target
    ensures w == r == Ok(Total(source))
    ensures Flat(source) == old(Flat(source)) && Flat(target) == Flat(source)
    ensures Flat(sc.sg) == Overlay(old(Flat(sc.sg)), offset, Flat(source), 0, Total(source))
  {
    hide Flat, Start, Overlay;
    var length := Size(source);
    var req := DataRequest(length, offset);
    ghost var was, aim, data := Flat(sc.sg), Flat(target), Flat(source);
    var n, c;
    w, n, c := CopySgFromIovec(sc, req, source, k => false);
    assert Flat(target) == aim;
    r, n, c := CopySgToIovec(sc, req, target, k => false);
    ReadBack(was, offset, data, aim);
  }
}
