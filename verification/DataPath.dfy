/** The write of the target that carries data and responses together: the data reaches the commands' buffers before
    any of them is completed. */
module DataPath {
  import opened Buffers
  import opened Errors
  import opened HostState
  import opened Lifecycle
  import opened Calls
  import opened SgCopy
  import opened VscHost

  datatype DataType = CDB | DATA | SENSE | UNKNOWN

  /** The memory of a request of the mid-layer that a write may reach. */
  datatype Request = Request(sc: ScsiCmnd, sense: array<byte>)

  /** One data request inside a write: the checks of its header, what it asks for, and which user copies fault. */
  datatype DataMsg = DataMsg(
    wellFormed: bool, tag: nat, cmdSn: nat,
    kind: DataType, req: DataRequest, iov: seq<array<byte>>, fault: nat -> bool)

  ghost function Memory(rq: Request): set<array<byte>> {
    {rq.sense} + set k | 0 <= k < |rq.sc.sg| :: rq.sc.sg[k]
  }

  /** The kernel's buffers and the user's are separate memory. */
  ghost predicate Clear(rq: Request, d: DataMsg) {
    && Sane(rq.sc.sg, d.iov) && Sane([rq.sense], d.iov) && (forall k :: 0 <= k < |rq.sc.sg| ==> rq.sc.sg[k] != rq.sense)
    && d.req.offset < U32_LIMIT && (d.kind.SENSE? ==> d.req.offset <= rq.sense.Length)
  }

  /** The message stands in the buffer at its offset, as far as the buffer reaches. */
  predicate StandsIn(buf: seq<byte>, offset: nat, message: seq<byte>) {
    offset <= |buf| && var n := Min(|buf| - offset, |message|); buf[offset..offset + n] == message[..n]
  }

  /** The bytes of a request's buffers. */
  datatype Image = Image(data: seq<byte>, sense: seq<byte>)

  ghost function ImageOf(rq: Request): Image
    reads rq.sc.sg, rq.sense
  {
    Image(Flat(rq.sc.sg), rq.sense[..])
  }

  predicate Shows(image: Image, d: DataMsg, text: seq<byte>) {
    || (d.kind.DATA? && StandsIn(image.data, d.req.offset, text))
    || (d.kind.SENSE? && StandsIn(image.sense, d.req.offset, text))
  }

  ghost predicate Landed(rq: Request, d: DataMsg)
    reads rq.sc.sg, rq.sense, d.iov
  {
    Shows(ImageOf(rq), d, Flat(d.iov))
  }

  /** The requested transfer can go through: data with an offset inside the list, an iovec and, for READ and WRITE, the
      announced total equal to the buffer length and to the bytes that move; sense data with an offset inside the
      buffer; nothing else. */
  ghost predicate MayCopy(rq: Request, d: DataMsg) {
    match d.kind
    case DATA =>
      && d.req.offset < Total(rq.sc.sg) && |d.iov| > 0
      && (IsReadWrite(rq.sc.opcode) ==>
            rq.sc.bufflen == d.req.totalIovecLen == Min(Total(rq.sc.sg) - d.req.offset, Total(d.iov)))
    case SENSE => d.req.offset <= rq.sense.Length
    case _ => false
  }

  ghost predicate Faultless(d: DataMsg) { forall k: nat :: !d.fault(k) }

  function OffsetIn(buf: seq<byte>, offset: nat, text: seq<byte>): seq<byte> {
    if offset <= |buf| then Overlay(buf, offset, text, 0, Min(|buf| - offset, |text|)) else buf
  }

  /** The buffers once the message was laid over them. */
  function Written(image: Image, d: DataMsg, text: seq<byte>): Image {
    match d.kind
    case DATA => image.(data := OffsetIn(image.data, d.req.offset, text))
    case SENSE => image.(sense := OffsetIn(image.sense, d.req.offset, text))
    case _ => image
  }

  /** What is laid over a buffer stands there, and the rest is as before. */
  lemma OffsetInIs(buf: seq<byte>, offset: nat, text: seq<byte>)
    requires offset <= |buf|
    ensures var v, n := OffsetIn(buf, offset, text), Min(|buf| - offset, |text|);
      && |v| == |buf| && StandsIn(v, offset, text)
      && v[..offset] == buf[..offset] && v[offset + n..] == buf[offset + n..]
  {}

  /** `vsc_xfer_data` in write mode. */
  method XferFromUser(rq: Request, d: DataMsg) returns (r: Result<nat>)
    requires Clear(rq, d)
    modifies rq.sc.sg, rq.sense
    ensures d.kind.CDB? ==> r == Err(EACCES)
    ensures d.kind.UNKNOWN? ==> r == Err(EIO)
    ensures Flat(d.iov) == old(Flat(d.iov))
    ensures !d.kind.DATA? ==> Flat(rq.sc.sg) == old(Flat(rq.sc.sg))
    ensures !d.kind.SENSE? ==> rq.sense[..] == old(rq.sense[..])
    ensures r.Ok? ==> MayCopy(rq, d) && ImageOf(rq) == Written(old(ImageOf(rq)), d, Flat(d.iov)) && Landed(rq, d)
    ensures r.Ok? ==>
      r.value == Min((if d.kind.DATA? then Total(rq.sc.sg) else rq.sense.Length) - d.req.offset, Total(d.iov))
    ensures MayCopy(rq, d) && Faultless(d) ==> r.Ok?
  {
    hide Flat, StandsIn, Overlay, Total, Shows;
    OneBuffer(rq.sense);
    match d.kind {
      case CDB => r := Err(EACCES);
      case DATA =>
        ghost var was := Flat(rq.sc.sg);
        var copied, calls;
        r, copied, calls := CopySgFromIovec(rq.sc, d.req, d.iov, d.fault);
        if r.Ok? { LandsThere(was, rq, d); }
      case SENSE =>
        ghost var was := rq.sense[..];
        var copied, calls;
        r, copied, calls := CopyDataFromIovec(rq.sense, d.req.offset, d.iov, d.fault);
        OneBuffer(rq.sense);
        if r.Ok? { LandsThere(was, rq, d); }
      case UNKNOWN => r := Err(EIO);
    }
  }

  lemma LandsThere(was: seq<byte>, rq: Request, d: DataMsg)
    requires d.req.offset <= |was| && (d.kind.DATA? || d.kind.SENSE?)
    requires OffsetIn(was, d.req.offset, Flat(d.iov)) == if d.kind.DATA? then Flat(rq.sc.sg) else rq.sense[..]
    ensures Landed(rq, d)
  {
    hide Flat;
    OffsetInIs(was, d.req.offset, Flat(d.iov));
  }

  // ----- On the host -----

  /** The checks of a data request. */
  ghost predicate Passes(h: Host, d: DataMsg) { d.wellFormed && Addressed(h, d.tag, d.cmdSn) }

  /** A data request is checked like a response. */
  lemma SameChecks(h: Host, d: DataMsg, r: Rsp)
    requires r.tag == d.tag && r.cmdSn == d.cmdSn
    ensures Passes(h, d) <==> d.wellFormed && Accepts(h, r)
    ensures Passes(h, d) <==>
      d.wellFormed && h.Listed(d.tag) && d.tag < h.Nr() && h.slots[d.tag].stat == READ_COMP
      && h.slots[d.tag].cmdSn == d.cmdSn
  {}

  /** The message names a command that is read and unanswered, and the transfer it asks for can go through. */
  ghost predicate GoesThrough(v: Host, d: DataMsg, requests: map<nat, Request>) {
    Passes(v, d) && IdOf(v, d.tag) in requests && MayCopy(requests[IdOf(v, d.tag)], d)
  }

  /** Every queued command has its request; requests share no memory with each other or with the host's pool, and no
      user buffer lies in any of them. */
  ghost predicate Fits(v: Host, words: array<bv64>, requests: map<nat, Request>, data: seq<DataMsg>) {
    && (forall t: nat :: v.Listed(t) ==> IdOf(v, t) in requests)
    && (forall x, y :: x in requests && y in requests && x != y ==> Memory(requests[x]) !! Memory(requests[y]))
    && (forall x, k :: x in requests && 0 <= k < |data| ==> Clear(requests[x], data[k]))
    && words !in AllMemory(requests) && words !in UserMemory(data)
  }

  ghost predicate Known(h: Ctrl, requests: map<nat, Request>, data: seq<DataMsg>)
    requires h.Valid()
    reads h, h.tbl, h.bits.words
  {
    Fits(h.View(), h.bits.words, requests, data)
  }

  ghost function UserMemory(data: seq<DataMsg>): set<object> {
    set k, l | 0 <= k < |data| && 0 <= l < |data[k].iov| :: data[k].iov[l]
  }

  ghost function AllMemory(requests: map<nat, Request>): set<object> {
    set x, a | x in requests && a in Memory(requests[x]) :: a
  }

  lemma MemoryIn(requests: map<nat, Request>, x: nat)
    requires x in requests
    ensures requests[x].sense in AllMemory(requests)
    ensures forall k :: 0 <= k < |requests[x].sc.sg| ==> requests[x].sc.sg[k] in AllMemory(requests)
  {
    assert requests[x].sense in Memory(requests[x]);
    assert forall k :: 0 <= k < |requests[x].sc.sg| ==> requests[x].sc.sg[k] in Memory(requests[x]);
  }

  lemma MemoryApart(requests: map<nat, Request>, x: nat, y: nat)
    requires x in requests && y in requests && Memory(requests[x]) !! Memory(requests[y])
    ensures var a, b := requests[x], requests[y];
      && a.sense != b.sense
      && (forall k :: 0 <= k < |a.sc.sg| ==> a.sc.sg[k] != b.sense)
      && (forall k :: 0 <= k < |b.sc.sg| ==> b.sc.sg[k] != a.sense)
      && forall k, l :: 0 <= k < |a.sc.sg| && 0 <= l < |b.sc.sg| ==> a.sc.sg[k] != b.sc.sg[l]
  {
    var a, b := requests[x], requests[y];
    assert a.sense in Memory(a) && b.sense in Memory(b);
    assert forall k :: 0 <= k < |a.sc.sg| ==> a.sc.sg[k] in Memory(a);
    assert forall k :: 0 <= k < |b.sc.sg| ==> b.sc.sg[k] in Memory(b);
  }

  lemma UserMemoryIn(data: seq<DataMsg>, k: nat)
    requires k < |data|
    ensures forall l :: 0 <= l < |data[k].iov| ==> data[k].iov[l] in UserMemory(data)
  {}

  ghost function Images(requests: map<nat, Request>): (m: map<nat, Image>)
    reads AllMemory(requests)
    ensures m.Keys == requests.Keys && forall x :: x in requests ==> m[x] == ImageOf(requests[x])
  {
    map x | x in requests :: (MemoryIn(requests, x); ImageOf(requests[x]))
  }

  ghost function Texts(data: seq<DataMsg>): (r: seq<seq<byte>>)
    reads UserMemory(data)
    ensures |r| == |data| && forall k :: 0 <= k < |data| ==> r[k] == Flat(data[k].iov)
  {
    seq(|data|, k requires 0 <= k < |data| reads UserMemory(data) => (UserMemoryIn(data, k); Flat(data[k].iov)))
  }

  /** Memory nobody wrote. */
  twostate predicate Same(bufs: seq<array<byte>>)
    reads bufs
  {
    forall k :: 0 <= k < |bufs| ==> bufs[k][..] == old(bufs[k][..])
  }

  twostate lemma SameFlat(bufs: seq<array<byte>>)
    requires Same(bufs)
    ensures Flat(bufs) == old(Flat(bufs))
  {
    assert Contents(bufs) == old(Contents(bufs));
  }

  /** A command's buffers are not where the user's are. */
  lemma ClearApart(rq: Request, d: DataMsg)
    requires Clear(rq, d)
    ensures forall k :: 0 <= k < |d.iov| ==> d.iov[k] != rq.sense
    ensures forall k, l :: 0 <= k < |d.iov| && 0 <= l < |rq.sc.sg| ==> d.iov[k] != rq.sc.sg[l]
  {
    assert [rq.sense][0] == rq.sense;
  }

  twostate lemma MessagesKept(data: seq<DataMsg>)
    requires forall k :: 0 <= k < |data| ==> Same(data[k].iov)
    ensures forall k :: 0 <= k < |data| ==> Flat(data[k].iov) == old(Flat(data[k].iov))
  {
    forall k | 0 <= k < |data| ensures Flat(data[k].iov) == old(Flat(data[k].iov)) { SameFlat(data[k].iov); }
  }

  twostate lemma RequestKept(rq: Request)
    requires Same(rq.sc.sg) && Same([rq.sense])
    ensures Flat(rq.sc.sg) == old(Flat(rq.sc.sg)) && rq.sense[..] == old(rq.sense[..])
  {
    SameFlat(rq.sc.sg);
    assert [rq.sense][0] == rq.sense;
  }

  /** `vsc_scsi_cmd_data` in write mode, for message `i` of a write. */
  method ScsiCmdData(h: Ctrl, data: seq<DataMsg>, i: nat, requests: map<nat, Request>) returns (r: Result<nat>)
    requires i < |data| && h.Valid() && Ready(h.View()) && Known(h, requests, data)
    modifies AllMemory(requests)
    ensures h.Valid() && h.View() == old(h.View())
    ensures Texts(data) == old(Texts(data))
    ensures !Passes(h.View(), data[i]) ==> r == Err(EIO)
    ensures Passes(h.View(), data[i]) ==> IdOf(h.View(), data[i].tag) in requests
    ensures r.Ok? ==> GoesThrough(h.View(), data[i], requests)
    ensures r.Ok? ==> var x := IdOf(h.View(), data[i].tag);
      Images(requests)[x] == Written(old(Images(requests)[x]), data[i], Texts(data)[i])
    ensures GoesThrough(h.View(), data[i], requests) && Faultless(data[i]) ==> r.Ok?
    ensures forall x :: x in requests && !(Passes(h.View(), data[i]) && x == IdOf(h.View(), data[i].tag)) ==>
      Images(requests)[x] == old(Images(requests)[x])
  {
    hide Flat, Shows, Written, MayCopy, Faultless, ImageOf, Images, Texts, QueuesOk, Clear, AllMemory, UserMemory;
    hide Memory;
    var d := data[i];
    if !d.wellFormed || d.tag >= |h.tbl| {
      return Err(EIO);
    }
    var c := h.tbl[d.tag];
    if c.stat != READ_COMP || c.cmdSn != d.cmdSn {
      return Err(EIO);
    }
    if !h.Linked(d.tag) {
      return Err(EIO);
    }
    LiveRequest(h.View(), d.tag);
    assert h.View().Listed(d.tag);
    var id := c.scsiCmd.value;
    MemoryIn(requests, id);
    r := XferFromUser(requests[id], d);
    forall k | 0 <= k < |data| ensures Same(data[k].iov) {
      ClearApart(requests[id], data[k]);
    }
    MessagesKept(data);
    assert Texts(data) == old(Texts(data));
    forall x | x in requests && x != id ensures ImageOf(requests[x]) == old(ImageOf(requests[x])) {
      MemoryApart(requests, x, id);
      RequestKept(requests[x]);
    }
  }

  // ----- Data and responses in one write -----

  /** A combined write. The counts are the user's 32-bit words read as signed. */
  datatype DataAndRsp = DataAndRsp(
    lengthOk: bool, memory: bool, fault: bool,
    data: seq<DataMsg>, readCount: int, cmdCount: int,
    rsps: seq<Rsp>, rspCount: int)

  predicate Arrives(w: DataAndRsp) {
    w.lengthOk && w.memory && !w.fault && w.readCount <= MAX_BATCH && w.cmdCount <= MAX_BATCH && w.cmdCount != 0
  }

  lemma PassesKnown(h: Ctrl, requests: map<nat, Request>, data: seq<DataMsg>)
    requires h.Valid() && Known(h, requests, data)
    ensures forall d :: Passes(h.View(), d) ==> IdOf(h.View(), d.tag) in requests
  {}

  ghost predicate AllGoThrough(v: Host, data: seq<DataMsg>, n: nat, requests: map<nat, Request>) {
    n <= |data| && forall k :: 0 <= k < n ==> GoesThrough(v, data[k], requests)
  }

  /** The buffers of all commands with the first `n` messages laid over them, one after the other. */
  ghost function Laid(v: Host, data: seq<DataMsg>, n: nat, images: map<nat, Image>, texts: seq<seq<byte>>)
    : (m: map<nat, Image>)
    requires n <= |data| == |texts|
    ensures m.Keys == images.Keys
  {
    if n == 0 then images
    else
      var m, x := Laid(v, data, n - 1, images, texts), IdOf(v, data[n - 1].tag);
      if x in m then m[x := Written(m[x], data[n - 1], texts[n - 1])] else m
  }

  /** The first `n` of the messages went through and nothing else was written, but for the buffers of the command that
      the message after them names, if that one failed. */
  ghost predicate Transferred(v: Host, data: seq<DataMsg>, n: nat, failed: bool, was: map<nat, Image>,
                              now: map<nat, Image>, texts: seq<seq<byte>>)
  {
    && n <= |data| == |texts| && now.Keys == was.Keys && (failed ==> n < |data|)
    && forall x :: x in was && !(failed && x == IdOf(v, data[n].tag)) ==> now[x] == Laid(v, data, n, was, texts)[x]
  }

  lemma OneMoreLaid(v: Host, data: seq<DataMsg>, n: nat, first: map<nat, Image>, was: map<nat, Image>,
                    now: map<nat, Image>, texts: seq<seq<byte>>)
    requires n < |data| && Transferred(v, data, n, false, first, was, texts)
    requires now.Keys == was.Keys && forall x :: x in was && x != IdOf(v, data[n].tag) ==> now[x] == was[x]
    ensures Transferred(v, data, n, true, first, now, texts)
    ensures var x := IdOf(v, data[n].tag);
      x in was && now[x] == Written(was[x], data[n], texts[n]) ==>
        Transferred(v, data, n + 1, false, first, now, texts)
  {
    hide IdOf, Written;
    assert Laid(v, data, n, first, texts) == was;
  }

  /** One of the messages after `k`, up to `m`, names the same command. */
  ghost predicate Overwritten(h: Host, data: seq<DataMsg>, k: nat, m: nat)
    requires k < m <= |data|
  {
    exists j :: k < j < m && IdOf(h, data[j].tag) == IdOf(h, data[k].tag)
  }

  /** The image is one of these buffers. */
  ghost predicate Sized(image: Image, rq: Request) {
    |image.data| == Total(rq.sc.sg) && |image.sense| == rq.sense.Length
  }

  ghost predicate AllSized(images: map<nat, Image>, requests: map<nat, Request>) {
    images.Keys == requests.Keys && forall x :: x in images ==> Sized(images[x], requests[x])
  }

  lemma WrittenShows(image: Image, rq: Request, d: DataMsg, text: seq<byte>)
    requires Sized(image, rq) && MayCopy(rq, d)
    ensures Sized(Written(image, d, text), rq) && Shows(Written(image, d, text), d, text)
  {
    hide StandsIn, OffsetIn;
    if d.kind.DATA? { OffsetInIs(image.data, d.req.offset, text); }
    if d.kind.SENSE? { OffsetInIs(image.sense, d.req.offset, text); }
  }

  /** A message stands in the buffer it was meant for unless a later one names the same command; the buffers of commands
      that none names are as before. */
  lemma {:induction false} LaidIs(v: Host, data: seq<DataMsg>, n: nat, images: map<nat, Image>, texts: seq<seq<byte>>,
                                  requests: map<nat, Request>)
    requires n <= |data| == |texts| && AllGoThrough(v, data, n, requests) && AllSized(images, requests)
    ensures AllSized(Laid(v, data, n, images, texts), requests)
    ensures AllLanded(v, data, n, n, Laid(v, data, n, images, texts), texts)
    ensures OthersKept(v, data, n, images, Laid(v, data, n, images, texts))
    decreases n
  {
    hide Shows, IdOf, Written, Sized, AllSized, GoesThrough, AllGoThrough, AllLanded, OthersKept, Laid;
    if n == 0 {
      NothingLaid(v, data, images, texts);
    } else {
      FewerGoThrough(v, data, n, requests);
      LaidIs(v, data, n - 1, images, texts, requests);
      var m, w := Laid(v, data, n - 1, images, texts), Laid(v, data, n, images, texts);
      LaidStep(v, data, n, images, texts, requests);
      OneMoreLanded(v, data, n - 1, m, w, texts);
      OneMoreKept(v, data, n - 1, images, m, w);
    }
  }

  lemma NothingLaid(v: Host, data: seq<DataMsg>, images: map<nat, Image>, texts: seq<seq<byte>>)
    requires |data| == |texts|
    ensures Laid(v, data, 0, images, texts) == images
    ensures AllLanded(v, data, 0, 0, images, texts) && OthersKept(v, data, 0, images, images)
  {}

  lemma FewerGoThrough(v: Host, data: seq<DataMsg>, n: nat, requests: map<nat, Request>)
    requires 0 < n && AllGoThrough(v, data, n, requests)
    ensures AllGoThrough(v, data, n - 1, requests)
  {}

  lemma LaidStep(v: Host, data: seq<DataMsg>, n: nat, images: map<nat, Image>, texts: seq<seq<byte>>,
                 requests: map<nat, Request>)
    requires 0 < n <= |data| == |texts| && AllGoThrough(v, data, n, requests)
    requires AllSized(Laid(v, data, n - 1, images, texts), requests)
    ensures var m, w := Laid(v, data, n - 1, images, texts), Laid(v, data, n, images, texts);
      var x := IdOf(v, data[n - 1].tag);
      && AllSized(w, requests) && w.Keys == m.Keys && (forall y :: y in m && y != x ==> w[y] == m[y])
      && x in w && Shows(w[x], data[n - 1], texts[n - 1])
  {
    hide Shows, IdOf, Written, Sized, MayCopy, Passes;
    var m, x := Laid(v, data, n - 1, images, texts), IdOf(v, data[n - 1].tag);
    assert GoesThrough(v, data[n - 1], requests);
    WrittenShows(m[x], requests[x], data[n - 1], texts[n - 1]);
  }

  /** Of `m` messages tried the first `n` went through: each stands in the buffers of the command it names, unless a
      later one that was tried names the same command. */
  ghost predicate AllLanded(v: Host, data: seq<DataMsg>, n: nat, m: nat, images: map<nat, Image>,
                            texts: seq<seq<byte>>)
  {
    n <= m <= |data| == |texts|
    && forall k :: 0 <= k < n ==>
      && IdOf(v, data[k].tag) in images
      && (!Overwritten(v, data, k, m) ==> Shows(images[IdOf(v, data[k].tag)], data[k], texts[k]))
  }

  /** While message `n` moves, the ones before it that name other commands stay where they stand. */
  lemma OneMoreLanded(v: Host, data: seq<DataMsg>, n: nat, was: map<nat, Image>, now: map<nat, Image>,
                      texts: seq<seq<byte>>)
    requires n < |data| == |texts| && AllLanded(v, data, n, n, was, texts)
    requires now.Keys == was.Keys && forall x :: x in was && x != IdOf(v, data[n].tag) ==> now[x] == was[x]
    ensures AllLanded(v, data, n, n + 1, now, texts)
    ensures IdOf(v, data[n].tag) in now && Shows(now[IdOf(v, data[n].tag)], data[n], texts[n]) ==>
      AllLanded(v, data, n + 1, n + 1, now, texts)
  {
    hide Shows, IdOf;
    forall k | 0 <= k < n && !Overwritten(v, data, k, n + 1)
      ensures !Overwritten(v, data, k, n) && IdOf(v, data[k].tag) != IdOf(v, data[n].tag)
    {}
  }

  /** Only the commands that the first `m` messages name have other bytes in their buffers than before. */
  ghost predicate OthersKept(v: Host, data: seq<DataMsg>, m: nat, was: map<nat, Image>, now: map<nat, Image>) {
    && m <= |data| && now.Keys == was.Keys
    && forall x :: x in was && (forall j :: 0 <= j < m ==> IdOf(v, data[j].tag) != x) ==> now[x] == was[x]
  }

  lemma OneMoreKept(v: Host, data: seq<DataMsg>, n: nat, first: map<nat, Image>, was: map<nat, Image>,
                    now: map<nat, Image>)
    requires n < |data| && OthersKept(v, data, n, first, was)
    requires now.Keys == was.Keys && forall x :: x in was && x != IdOf(v, data[n].tag) ==> now[x] == was[x]
    ensures OthersKept(v, data, n + 1, first, now)
  {
    hide IdOf;
  }

  function Tried(moved: nat, failed: bool): nat { if failed then moved + 1 else moved }

  /** What the transfers leave, message by message and command by command. */
  lemma TransferredIs(v: Host, data: seq<DataMsg>, n: nat, failed: bool, was: map<nat, Image>, now: map<nat, Image>,
                      texts: seq<seq<byte>>, requests: map<nat, Request>)
    requires Transferred(v, data, n, failed, was, now, texts)
    requires AllGoThrough(v, data, n, requests) && AllSized(was, requests)
    ensures AllLanded(v, data, n, Tried(n, failed), now, texts) && OthersKept(v, data, Tried(n, failed), was, now)
  {
    hide Shows, IdOf, Laid, GoesThrough, Sized;
    LaidIs(v, data, n, was, texts, requests);
    var m := Laid(v, data, n, was, texts);
    if failed {
      OneMoreLanded(v, data, n, m, now, texts);
      OneMoreKept(v, data, n, was, m, now);
    } else {
      assert m == now;
    }
  }

  lemma AllFit(requests: map<nat, Request>)
    ensures forall x :: x in requests ==> Sized(ImageOf(requests[x]), requests[x])
  {}

  /** The transfers, in order, until one fails. */
  method MoveAll(h: Ctrl, data: seq<DataMsg>, count: int, requests: map<nat, Request>) returns (moved: nat)
    requires count <= |data| && h.Valid() && Ready(h.View()) && Known(h, requests, data)
    modifies AllMemory(requests)
    ensures h.Valid() && h.View() == old(h.View()) && Texts(data) == old(Texts(data))
    ensures if count <= 0 then moved == 0 else moved <= count
    ensures AllGoThrough(h.View(), data, moved, requests)
    ensures Transferred(h.View(), data, moved, moved < count, old(Images(requests)), Images(requests), Texts(data))
    ensures moved < count ==> !(GoesThrough(h.View(), data[moved], requests) && Faultless(data[moved]))
  {
    hide Flat, Ready, AllMemory, UserMemory, Memory, Clear, Addressed, GoesThrough, Faultless, Written;
    hide AllGoThrough, Transferred, ImageOf, Images, Texts;
    moved := 0;
    ghost var v := h.View();
    PassesKnown(h, requests, data);
    hide IdOf, Passes, Fits;
    NoneYet(v, data, requests, Images(requests), Texts(data));
    while moved < count
      invariant h.Valid() && h.View() == v && (if count <= 0 then moved == 0 else moved <= count)
      invariant Known(h, requests, data) && Texts(data) == old(Texts(data))
      invariant AllGoThrough(v, data, moved, requests)
      invariant Transferred(v, data, moved, false, old(Images(requests)), Images(requests), Texts(data))
    {
      ghost var was, texts := Images(requests), Texts(data);
      var one := ScsiCmdData(h, data, moved, requests);
      OneMoreLaid(v, data, moved, old(Images(requests)), was, Images(requests), texts);
      if one.Err? {
        return;
      }
      OneMoreGoes(v, data, moved, requests);
      moved := moved + 1;
    }
  }

  lemma NoneYet(v: Host, data: seq<DataMsg>, requests: map<nat, Request>, images: map<nat, Image>,
                texts: seq<seq<byte>>)
    requires |texts| == |data|
    ensures AllGoThrough(v, data, 0, requests) && Transferred(v, data, 0, false, images, images, texts)
  {}

  lemma OneMoreGoes(v: Host, data: seq<DataMsg>, n: nat, requests: map<nat, Request>)
    requires n < |data| && AllGoThrough(v, data, n, requests) && GoesThrough(v, data[n], requests)
    ensures AllGoThrough(v, data, n + 1, requests)
  {}

  twostate lemma TextsKept(data: seq<DataMsg>)
    requires forall k :: 0 <= k < |data| ==> Same(data[k].iov)
    ensures Texts(data) == old(Texts(data))
  {
    hide Flat, UserMemory;
    MessagesKept(data);
  }

  /** The batch of responses at the end of a write: it does not reach the commands' memory. */
  method Respond(h: Ctrl, write: DataAndRsp, requests: map<nat, Request>) returns (answered: Result<nat>)
    requires |write.rsps| == MAX_BATCH && h.Valid() && Ready(h.View()) && Known(h, requests, write.data)
    modifies h, h.tbl, h.bits.words
    ensures h.Valid() && Ready(h.View())
    ensures h.View() == AnswerCounted(old(h.View()), write.rsps, write.rspCount).0
    ensures answered.Ok? <==> AnswerCounted(old(h.View()), write.rsps, write.rspCount).1
    ensures Images(requests) == old(Images(requests)) && Texts(write.data) == old(Texts(write.data))
  {
    hide Flat, Ready, AllMemory, UserMemory, AnswerAll, Memory, Clear, Texts;
    answered := h.ResponseMultiScsiCmd(write.rsps, write.rspCount, true);
    forall x | x in requests ensures ImageOf(requests[x]) == old(ImageOf(requests[x])) {
      MemoryIn(requests, x);
      RequestKept(requests[x]);
    }
    forall k | 0 <= k < |write.data| { UserMemoryIn(write.data, k); }
    TextsKept(write.data);
  }

  /** No user copy of the first `count` messages faults. */
  ghost predicate AllFaultless(data: seq<DataMsg>, count: int)
    requires count <= |data|
  {
    forall k :: 0 <= k < count ==> Faultless(data[k])
  }

  /** The batch of responses goes through on this host. */
  ghost predicate RspsGood(v: Host, write: DataAndRsp)
    requires |write.rsps| == MAX_BATCH
  {
    write.rspCount < 0 || (0 < write.rspCount <= 4 && AllAwaited(v, write.rsps[..write.rspCount]))
  }

  lemma RspsGoodIs(v: Host, write: DataAndRsp)
    requires Ready(v) && |write.rsps| == MAX_BATCH
    ensures AnswerCounted(v, write.rsps, write.rspCount).1 <==> RspsGood(v, write)
  {
    hide Ready, AllAwaited;
    var n := AnswerCountedIs(v, write.rsps, write.rspCount);
    hide AnswerCounted, AnsweredTo;
  }

  /** Without faults the transfers stop at a message that cannot go through, and nowhere else. */
  lemma AllOrNot(v: Host, write: DataAndRsp, moved: nat, requests: map<nat, Request>)
    requires |write.data| == MAX_BATCH && Arrives(write) && AllGoThrough(v, write.data, moved, requests)
    requires if write.readCount <= 0 then moved == 0 else moved <= write.readCount
    requires moved < write.readCount ==>
      !(GoesThrough(v, write.data[moved], requests) && Faultless(write.data[moved]))
    ensures AllFaultless(write.data, write.readCount) ==>
      (moved >= write.readCount <==> AllGoThrough(v, write.data, Wanted(write), requests))
  {
    hide GoesThrough, Faultless;
  }

  function Wanted(write: DataAndRsp): nat { if write.readCount < 0 then 0 else write.readCount }

  /** `vsc_response_multi_data_and_rsp`: first `readCount` transfers, then a batch of responses whose own count is
      `rspCount`. No command is completed unless all the transfers succeeded, and then the messages are laid over the
      commands' buffers one after the other. */
  method MultiDataAndRsp(h: Ctrl, write: DataAndRsp, requests: map<nat, Request>) returns (r: Result<nat>, moved: nat)
    requires |write.data| == |write.rsps| == MAX_BATCH
    requires h.Valid() && Ready(h.View()) && Known(h, requests, write.data)
    modifies AllMemory(requests), h, h.tbl, h.bits.words
    ensures h.Valid() && Ready(h.View())
    ensures !Arrives(write) || moved < write.readCount ==> h.View() == old(h.View()) && r.Err?
    ensures (!write.lengthOk ==> r == Err(EINVAL)) && (write.lengthOk && !write.memory ==> r == Err(ENOMEM))
    ensures write.lengthOk && write.memory && !Arrives(write) ==> r == Err(EFAULT)
    ensures Arrives(write) && r.Err? ==> r == Err(EIO)
    ensures Arrives(write) && write.readCount <= moved ==>
      && h.View() == AnswerCounted(old(h.View()), write.rsps, write.rspCount).0
      && r == if AnswerCounted(old(h.View()), write.rsps, write.rspCount).1 then Ok(0) else Err(EIO)
    ensures Texts(write.data) == old(Texts(write.data))
    ensures moved <= MAX_BATCH && AllGoThrough(old(h.View()), write.data, moved, requests)
    ensures !Arrives(write) ==> Images(requests) == old(Images(requests))
    ensures Arrives(write) ==>
      Transferred(old(h.View()), write.data, moved, moved < write.readCount, old(Images(requests)), Images(requests),
                  Texts(write.data))
    ensures Arrives(write) ==>
      var tried := Tried(moved, moved < write.readCount);
      && AllLanded(old(h.View()), write.data, moved, tried, Images(requests), Texts(write.data))
      && OthersKept(old(h.View()), write.data, tried, old(Images(requests)), Images(requests))
    ensures Arrives(write) && moved < write.readCount ==>
      !(GoesThrough(old(h.View()), write.data[moved], requests) && Faultless(write.data[moved]))
    ensures Arrives(write) && AllFaultless(write.data, write.readCount) ==>
      (r.Ok? <==> AllGoThrough(old(h.View()), write.data, Wanted(write), requests) && RspsGood(old(h.View()), write))
  {
    hide Flat, Ready, AllMemory, UserMemory, AnswerAll, AnswerCounted, Memory, Clear, Addressed, Faultless, GoesThrough;
    hide AllLanded, AllGoThrough, OthersKept, Transferred, ImageOf, Images, Texts, IdOf, Fits;
    moved := 0;
    NoneYet(h.View(), write.data, requests, Images(requests), Texts(write.data));
    if !write.lengthOk {
      return Err(EINVAL), 0;
    }
    if !write.memory {
      return Err(ENOMEM), 0;
    }
    if write.fault {
      return Err(EFAULT), 0;
    }
    if write.readCount > MAX_BATCH || write.cmdCount > MAX_BATCH || write.cmdCount == 0 {
      return Err(EFAULT), 0;
    }
    AllFit(requests);
    RspsGoodIs(h.View(), write);
    hide RspsGood, AllFaultless;
    ghost var was := Images(requests);
    moved := MoveAll(h, write.data, write.readCount, requests);
    TransferredIs(h.View(), write.data, moved, moved < write.readCount, was, Images(requests), Texts(write.data),
                  requests);
    AllOrNot(h.View(), write, moved, requests);
    if moved < write.readCount {
      return Err(EIO), moved;
    }
    var answered := Respond(h, write, requests);
    r := if answered.Err? then Err(EIO) else Ok(0);
  }
}
