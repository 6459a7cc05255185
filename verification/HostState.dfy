/** The command side of one virtual host, as a value, and the effect of each
    piece of code that runs under the host lock. */
module HostState {
  import opened Seqs

  datatype Option<+T> = None | Some(value: T)

  /** Where a command slot stands. */
  datatype Stat = INIT | REQUEST | READ_COMP | RESP

  /** The host byte of a SCSI result. */
  datatype HostByte = DID_OK | DID_NO_CONNECT | DID_TIME_OUT | DID_ABORT | DID_ERROR | DID_SOFT_ERROR | DID_REQUEUE

  datatype Outcome = Outcome(hostByte: HostByte, statusByte: nat)

  /** One call of `scsi_done`: the request and the result it carries. */
  datatype Completion = Completion(sc: nat, outcome: Outcome)

  datatype Slot = Slot(stat: Stat, cmdSn: nat, refcnt: int, scsiCmd: Option<nat>)

  /** `done` is the mid-layer's record of `scsi_done` calls, oldest first. */
  datatype Host = Host(
    slots: seq<Slot>, bits: set<nat>,
    reqQ: seq<nat>, cmpQ: seq<nat>, rspQ: seq<nat>,
    qdepth: nat, ioRunning: nat, cmdSn: nat,
    done: seq<Completion>)
  {
    function Nr(): nat { |slots| }

    /** The slot's list node is linked into some queue. */
    predicate Listed(t: nat) { t in reqQ || t in cmpQ || t in rspQ }
  }

  const MAX_BATCH: nat := 4
  const MAX_NR_CMDS: nat := 2048 * 2048
  const TWO32: int := 0x1_0000_0000
  const TWO64: int := 0x1_0000_0000_0000_0000

  function Inc32(x: nat): nat { (x + 1) % TWO32 }

  function Dec32(x: nat): nat { if x == 0 then TWO32 - 1 else x - 1 }

  // ----- Serials -----

  lemma ModUnique(n: int, m: int, q: int, r: int)
    requires m > 0 && n == q * m + r && 0 <= r < m
    ensures n % m == r
  {
    var k := q - n / m;
    assert k * m == n % m - r;
    assert k >= 1 ==> k * m >= m;
    assert k <= -1 ==> k * m <= -m;
  }

  /** The 64-bit serial, cut to 32 bits, is the allocation number cut to 32 bits. */
  lemma SerialWraps(allocs: nat)
    ensures (allocs % TWO64 + 1) % TWO64 == (allocs + 1) % TWO64
    ensures (allocs + 1) % TWO64 % TWO32 == (allocs + 1) % TWO32
  {
    var q, r := allocs / TWO64, allocs % TWO64;
    if r == TWO64 - 1 { ModUnique(allocs + 1, TWO64, q + 1, 0); } else { ModUnique(allocs + 1, TWO64, q, r + 1); }
    var n := allocs + 1;
    var p, s := n / TWO64, n % TWO64;
    ModUnique(n, TWO32, p * TWO32 + s / TWO32, s % TWO32);
  }

  lemma ModsAgree(x: int, y: int)
    ensures x % TWO32 == y % TWO32 <==> (x - y) % TWO32 == 0
  {}

  lemma NearMultiple(d: int)
    requires 0 <= d < TWO32
    ensures d % TWO32 == 0 <==> d == 0
  {}

  // ----- The pool -----

  /** The least index in `i..n` outside `bits`, or `n`. */
  function FirstFree(bits: set<nat>, i: nat, n: nat): (r: nat)
    requires i <= n
    ensures i <= r <= n && (r < n ==> r !in bits) && forall j: nat :: i <= j < r ==> j in bits
    decreases n - i
  {
    if i == n || i !in bits then i else FirstFree(bits, i + 1, n)
  }

  /** `vsc_cmd_alloc`: a free slot made ready for a new command, or nothing when every bit is set. */
  function Alloc(h: Host): (Host, Option<nat>) {
    var i := FirstFree(h.bits, 0, h.Nr());
    if i == h.Nr() then (h, None)
    else
      var sn := (h.cmdSn + 1) % TWO64;
      (h.(bits := h.bits + {i}, cmdSn := sn, slots := h.slots[i := Slot(INIT, sn % TWO32, 1, None)]), Some(i))
  }

  function SetStat(h: Host, t: nat, s: Stat): Host
    requires t < h.Nr()
  {
    h.(slots := h.slots[t := h.slots[t].(stat := s)])
  }

  function SetScsiCmd(h: Host, t: nat, sc: nat): Host
    requires t < h.Nr()
  {
    h.(slots := h.slots[t := h.slots[t].(scsiCmd := Some(sc))])
  }

  /** `vsc_cmd_get`. */
  function GetRef(h: Host, t: nat): Host
    requires t < h.Nr()
  {
    h.(slots := h.slots[t := h.slots[t].(refcnt := h.slots[t].refcnt + 1)])
  }

  /** `vsc_cmd_put`: the last reference clears the slot's bit. */
  function PutRef(h: Host, t: nat): Host
    requires t < h.Nr()
  {
    var left := h.slots[t].refcnt - 1;
    h.(slots := h.slots[t := h.slots[t].(refcnt := left)], bits := if left == 0 then h.bits - {t} else h.bits)
  }

  function Finish(h: Host, sc: nat, outcome: Outcome): Host {
    h.(done := h.done + [Completion(sc, outcome)])
  }

  // ----- The queues -----

  /** `removeQ`: takes the slot's node out of whichever queue holds it. */
  function Unlink(h: Host, t: nat): Host {
    h.(reqQ := Remove(h.reqQ, t), cmpQ := Remove(h.cmpQ, t), rspQ := Remove(h.rspQ, t))
  }

  function Enqueue(h: Host, t: nat): Host {
    h.(reqQ := h.reqQ + [t], qdepth := Inc32(h.qdepth), ioRunning := Inc32(h.ioRunning))
  }

  /** One turn of the `vsc_start_io` loop. */
  function StartOne(h: Host): Host
    requires h.reqQ != [] && h.reqQ[0] < h.Nr()
  {
    var c := h.reqQ[0];
    SetStat(h.(reqQ := h.reqQ[1..], qdepth := Dec32(h.qdepth), cmpQ := h.cmpQ + [c]), c, REQUEST)
  }

  function SetStats(slots: seq<Slot>, ts: seq<nat>, s: Stat): (r: seq<Slot>)
    ensures |r| == |slots|
    ensures forall t :: 0 <= t < |r| ==> r[t] == if t in ts then slots[t].(stat := s) else slots[t]
  {
    seq(|slots|, t requires 0 <= t < |slots| => if t in ts then slots[t].(stat := s) else slots[t])
  }

  function BatchSize(h: Host): nat { if |h.cmpQ| <= MAX_BATCH then |h.cmpQ| else MAX_BATCH }

  /** The commands the next read would take. */
  function Batch(h: Host): seq<nat> { h.cmpQ[..BatchSize(h)] }

  /** `vsc_get_multi_scsi_cmd_and_cdb`, all of it: the batch moves to `rspQ`, or, when the
      copy to the user faults, goes back to the head of `cmpQ` one by one. */
  function GetBatch(h: Host, fault: bool): Host
  {
    var rest := h.cmpQ[BatchSize(h)..];
    if fault then h.(slots := SetStats(h.slots, Batch(h), REQUEST), cmpQ := Reverse(Batch(h)) + rest)
    else h.(slots := SetStats(h.slots, Batch(h), READ_COMP), cmpQ := rest, rspQ := h.rspQ + Batch(h))
  }

  /** The checks that a response or a data request for (tag, sn) must pass. */
  predicate Addressed(h: Host, tag: nat, sn: nat) {
    tag < h.Nr() && h.slots[tag].stat == READ_COMP && h.slots[tag].cmdSn == sn && h.Listed(tag)
  }

  /** What every path that ends a command does under the lock: off its queue, one less running. */
  function TakeOff(h: Host, t: nat): Host {
    var u := Unlink(h, t);
    u.(ioRunning := Dec32(u.ioRunning))
  }

  datatype QueueName = REQQ | COMQ | RSPQ

  function QueueOf(h: Host, q: QueueName): seq<nat> {
    match q case REQQ => h.reqQ case COMQ => h.cmpQ case RSPQ => h.rspQ
  }
}
