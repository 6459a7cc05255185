/** Whole driver calls on one host, each run alone, as functions of its state. */
module Calls {
  import opened Seqs
  import opened HostState
  import opened Lifecycle

  /** What a read takes: the first four commands of `cmpQ`, or all of them if they are fewer. They move to the end of
      `rspQ`, marked as read, or, when the copy faults, back to the head in reverse. */
  lemma GetBatchIs(h: Host, fault: bool)
    ensures var n := if |h.cmpQ| < 4 then |h.cmpQ| else 4;
      var b, v := h.cmpQ[..n], GetBatch(h, fault);
      && Batch(h) == b
      && v == h.(slots := v.slots, cmpQ := v.cmpQ, rspQ := v.rspQ) && |v.slots| == |h.slots|
      && v.rspQ == (if fault then h.rspQ else h.rspQ + b)
      && v.cmpQ == (if fault then Reverse(b) else []) + h.cmpQ[n..]
      && forall t :: 0 <= t < |h.slots| ==>
           v.slots[t] == if t in b then h.slots[t].(stat := if fault then REQUEST else READ_COMP) else h.slots[t]
  {
    hide Reverse;
    assert [] + h.cmpQ[BatchSize(h)..] == h.cmpQ[BatchSize(h)..];
  }

  /** What every reachable state grants a call: sound queues, and a live request behind every entry. */
  ghost predicate Ready(h: Host) {
    && QueuesOk(h)
    && forall t: nat :: h.Listed(t) ==> h.slots[t].scsiCmd.Some? && h.slots[t].refcnt > 0
  }

  lemma ReachableReady(w: World)
    requires Inv(w)
    ensures Ready(w.h)
  {
    hide GensOk, LedgerOk;
    forall t: nat | w.h.Listed(t) ensures t < |w.books| && w.h.slots[t].scsiCmd.Some? && w.h.slots[t].refcnt > 0 {
      assert SlotOk(w, t);
    }
  }

  // ----- The two start loops -----

  predicate InRange(q: seq<nat>, n: nat) { forall i :: 0 <= i < |q| ==> q[i] < n }

  /** `vsc_start_io`: one command at a time. */
  function StartAll(h: Host): (r: Host)
    requires InRange(h.reqQ, h.Nr())
    decreases |h.reqQ|
  {
    if h.reqQ == [] then h else StartAll(StartOne(h))
  }

  /** `vsc_start_io_new`: the whole queue at once. */
  function StartBatch(h: Host): Host {
    h.(slots := SetStats(h.slots, h.reqQ, REQUEST), reqQ := [], cmpQ := h.cmpQ + h.reqQ, qdepth := 0)
  }

  lemma SubWraps(d: nat, n: nat)
    requires d < TWO32
    ensures (Dec32(d) - n) % TWO32 == (d - (n + 1)) % TWO32
  {
    if d == 0 { assert Dec32(d) - n == (d - (n + 1)) + TWO32; }
  }

  /** Both forms move every waiting command, in order; they can differ in `Qdepth` only. */
  lemma {:induction false} StartAllIs(h: Host)
    requires InRange(h.reqQ, h.Nr()) && h.qdepth < TWO32
    ensures StartAll(h) == StartBatch(h).(qdepth := (h.qdepth - |h.reqQ|) % TWO32)
    decreases |h.reqQ|
  {
    hide SetStats;
    StatsStep(h.slots, h.reqQ, REQUEST);
    if h.reqQ != [] {
      var k, c := StartOne(h), h.reqQ[0];
      StartAllIs(k);
      SubWraps(h.qdepth, |k.reqQ|);
      assert h.cmpQ + h.reqQ == k.cmpQ + k.reqQ;
    }
  }

  lemma StatsStep(slots: seq<Slot>, q: seq<nat>, s: Stat)
    requires InRange(q, |slots|)
    ensures q == [] ==> SetStats(slots, q, s) == slots
    ensures q != [] ==> SetStats(slots, q, s) == SetStats(slots[q[0] := slots[q[0]].(stat := s)], q[1..], s)
  {
    if q != [] { assert q == [q[0]] + q[1..]; }
  }

  lemma StatsSnoc(slots: seq<Slot>, q: seq<nat>, c: nat, s: Stat)
    requires c < |slots|
    ensures var r := SetStats(slots, q, s); SetStats(slots, q + [c], s) == r[c := r[c].(stat := s)]
  {}

  lemma StatsNone(slots: seq<Slot>, s: Stat)
    ensures SetStats(slots, [], s) == slots
  {}

  lemma StatsTwice(slots: seq<Slot>, q: seq<nat>, s: Stat, u: Stat)
    ensures SetStats(SetStats(slots, q, s), q, u) == SetStats(slots, q, u)
  {}

  lemma BatchParts(h: Host)
    requires Ready(h)
    ensures InRange(Batch(h), |h.slots|) && NoDup(Batch(h))
    ensures forall t :: t in Batch(h) ==> t !in h.cmpQ[BatchSize(h)..] && t !in h.rspQ && t !in h.reqQ
  {
    var b, rest := BatchSplit(h);
    forall i | 0 <= i < |b| ensures b[i] < |h.slots| { assert b[i] in b; }
  }

  /** The batch form refines the simple one exactly when `Qdepth` counts `reqQ`. */
  lemma BatchRefines(h: Host)
    requires InRange(h.reqQ, h.Nr()) && h.qdepth < TWO32
    ensures StartBatch(h) == StartAll(h) <==> h.qdepth == |h.reqQ| % TWO32
  {
    hide InRange, StartAll, SetStats;
    StartAllIs(h);
    ModsAgree(h.qdepth, |h.reqQ|);
    var b, d := StartBatch(h), (h.qdepth - |h.reqQ|) % TWO32;
    assert b.qdepth == 0;
    hide StartBatch;
    assert b == b.(qdepth := d) <==> d == 0;
  }

  lemma HeadsInRange(h: Host)
    requires QueuesOk(h)
    ensures forall t: nat :: h.Listed(t) ==> t < |h.slots|
  {}

  /** The host's part of `vsc_scsi_queue_command`: a slot, the request in it, the queue, the start loop. */
  function SubmitCall(h: Host, sc: nat): (Host, bool)
    requires InRange(h.reqQ, h.Nr())
  {
    var (a, t) := Alloc(h);
    match t
    case None => (h, false)
    case Some(i) => (StartAll(Enqueue(SetScsiCmd(a, i, sc), i)), true)
  }

  /** `v` is `h` with command `sc` in slot `t`, at the end of `cmpQ` behind everything queued before it. */
  ghost predicate Admitted(h: Host, v: Host, t: nat, sc: nat) {
    && t < h.Nr() == |v.slots| && v.bits == h.bits + {t}
    && v.reqQ == [] && v.cmpQ == h.cmpQ + h.reqQ + [t] && v.rspQ == h.rspQ
    && v.cmdSn == (h.cmdSn + 1) % TWO64 && v.slots[t] == Slot(REQUEST, v.cmdSn % TWO32, 1, Some(sc))
    && v.done == h.done && v.ioRunning == Inc32(h.ioRunning) && v.qdepth == (h.qdepth - |h.reqQ|) % TWO32
  }

  lemma StartStores(h: Host, t: nat, sc: nat, k: Host)
    requires InRange(h.reqQ, h.Nr()) && h.qdepth < TWO32 && t == FirstFree(h.bits, 0, h.Nr()) < h.Nr()
    requires k == Enqueue(SetScsiCmd(Alloc(h).0, t, sc), t)
    ensures InRange(k.reqQ, k.Nr()) && Admitted(h, StartAll(k), t, sc)
  {
    hide SetStats, FirstFree, StartAll;
    StartAllIs(k);
    assert k.reqQ[|h.reqQ|] == t;
    assert k.cmpQ + k.reqQ == h.cmpQ + h.reqQ + [t];
  }

  /** A full pool turns the command away and changes nothing; otherwise the command takes the least free slot,
      and the next serial. */
  lemma SubmitCallIs(h: Host, sc: nat)
    requires InRange(h.reqQ, h.Nr()) && h.qdepth < TWO32
    ensures var (v, ok) := SubmitCall(h, sc);
      && (ok <==> exists t: nat :: t < h.Nr() && t !in h.bits)
      && if ok then Admitted(h, v, FirstFree(h.bits, 0, h.Nr()), sc) else v == h
  {
    hide Admitted, FirstFree, StartAll;
    var t := FirstFree(h.bits, 0, h.Nr());
    if t < h.Nr() {
      StartStores(h, t, sc, Enqueue(SetScsiCmd(Alloc(h).0, t, sc), t));
    }
  }

  // ----- Responses -----

  /** One response of the target. */
  datatype Rsp = Rsp(tag: nat, cmdSn: nat, commandStatus: nat, scsiStatus: nat)

  const CMD_SUCCESS := 0
  const CMD_FAILURE := 1
  const CMD_INVALID := 2
  const CMD_CONNECTION_LOST := 3
  const CMD_TIMEOUT := 4
  const CMD_PROTOCOL_ERR := 5
  const CMD_NEED_RETRY := 6

  /** `vsc_sense_check`, started from DID_OK. */
  function SenseCheck(status: nat): HostByte {
    if status == CMD_SUCCESS || status == CMD_FAILURE then DID_OK
    else if status == CMD_INVALID then DID_NO_CONNECT
    else if status == CMD_CONNECTION_LOST then DID_ERROR
    else if status == CMD_TIMEOUT then DID_TIME_OUT
    else if status == CMD_PROTOCOL_ERR then DID_SOFT_ERROR
    else if status == CMD_NEED_RETRY then DID_REQUEUE
    else DID_ERROR
  }

  function OutcomeOf(r: Rsp): Outcome { Outcome(SenseCheck(r.commandStatus), r.scsiStatus % 128 * 2) }

  /** What the status words of a response mean: the target's success and failure both complete with DID_OK, the
      driver's own statuses with a host byte each, anything else with DID_ERROR; the status byte holds the target's low
      seven bits. */
  lemma StatusMeans(r: Rsp)
    ensures var o := OutcomeOf(r);
      && (o.hostByte == DID_OK <==> r.commandStatus <= 1) && (o.hostByte == DID_NO_CONNECT <==> r.commandStatus == 2)
      && (o.hostByte == DID_TIME_OUT <==> r.commandStatus == 4)
      && (o.hostByte == DID_SOFT_ERROR <==> r.commandStatus == 5)
      && (o.hostByte == DID_REQUEUE <==> r.commandStatus == 6)
      && (o.hostByte == DID_ERROR <==> r.commandStatus == 3 || r.commandStatus > 6)
      && o.statusByte % 2 == 0 && o.statusByte < 256 && o.statusByte / 2 == r.scsiStatus % 128
  {}

  predicate Accepts(h: Host, r: Rsp) { Addressed(h, r.tag, r.cmdSn) }

  function CompletionOf(h: Host, r: Rsp): Completion { Completion(IdOf(h, r.tag), OutcomeOf(r)) }

  /** An accepted response, carried through to the put. */
  function Answer(h: Host, r: Rsp): (v: Host)
    requires Accepts(h, r)
    ensures |v.slots| == |h.slots|
  {
    PutRef(Finish(SetStat(TakeOff(h, r.tag), r.tag, RESP), IdOf(h, r.tag), OutcomeOf(r)), r.tag)
  }

  /** A slot whose response was accepted. */
  function Answered(s: Slot): Slot { s.(stat := RESP, refcnt := s.refcnt - 1) }

  lemma AnswerReady(h: Host, r: Rsp)
    requires Ready(h) && Accepts(h, r)
    ensures Ready(Answer(h, r)) && Answer(h, r).done == h.done + [CompletionOf(h, r)]
    ensures Answer(h, r).slots[r.tag] == Answered(h.slots[r.tag]) && Answer(h, r).ioRunning == h.ioRunning - 1
    ensures forall t: nat :: Answer(h, r).Listed(t) <==> h.Listed(t) && t != r.tag
    ensures forall t: nat :: t < |h.slots| && t != r.tag ==>
      Answer(h, r).slots[t] == h.slots[t] && (t in Answer(h, r).bits <==> t in h.bits)
  {
    var u := TakeOff(h, r.tag);
    RunsSome(h);
    TakeOffKeepsQueues(h, r.tag);
    UnlinkIs(h, r.tag);
    hide Unlink, TakeOff;
    TakeOffIs(h, r.tag);
  }

  lemma TakeOffIs(h: Host, t: nat)
    ensures TakeOff(h, t) == Unlink(h, t).(ioRunning := Dec32(h.ioRunning))
    ensures TakeOff(h, t).slots == h.slots && TakeOff(h, t).bits == h.bits && TakeOff(h, t).done == h.done
    ensures TakeOff(h, t).qdepth == h.qdepth && TakeOff(h, t).cmdSn == h.cmdSn
    ensures forall u: nat :: TakeOff(h, t).Listed(u) <==> Unlink(h, t).Listed(u)
  {}

  /** The loop of `vsc_response_multi_scsi_cmd`: it stops at the first response that fails.
      The result is the state it leaves and how many responses it accepted. */
  function AnswerAll(h: Host, rs: seq<Rsp>): (r: (Host, nat))
    ensures r.1 <= |rs|
    decreases |rs|
  {
    if rs == [] || !Accepts(h, rs[0]) then (h, 0)
    else
      var (k, n) := AnswerAll(Answer(h, rs[0]), rs[1..]);
      (k, n + 1)
  }

  lemma AnswerStep(h: Host, rs: seq<Rsp>)
    ensures AnswerAll(h, rs) ==
      if rs == [] || !Accepts(h, rs[0]) then (h, 0)
      else (AnswerAll(Answer(h, rs[0]), rs[1..]).0, AnswerAll(Answer(h, rs[0]), rs[1..]).1 + 1)
  {}

  ghost predicate Repeated(rs: seq<Rsp>, k: nat)
    requires k < |rs|
  {
    exists j :: 0 <= j < k && rs[j].tag == rs[k].tag
  }

  /** Response `k` would be accepted: the host awaits it, and no earlier response of the batch took its slot. */
  ghost predicate Good(h: Host, rs: seq<Rsp>, k: nat)
    requires k < |rs|
  {
    Accepts(h, rs[k]) && !Repeated(rs, k)
  }

  function Completions(h: Host, rs: seq<Rsp>): (r: seq<Completion>)
    ensures |r| == |rs| && forall i :: 0 <= i < |rs| ==> r[i] == CompletionOf(h, rs[i])
  {
    seq(|rs|, i requires 0 <= i < |rs| => CompletionOf(h, rs[i]))
  }

  /** After one answer, the rest of the batch is judged as in the batch. */
  lemma GoodShifts(h: Host, rs: seq<Rsp>, k: nat)
    requires Ready(h) && rs != [] && Accepts(h, rs[0]) && k < |rs| - 1
    ensures Good(Answer(h, rs[0]), rs[1..], k) <==> Good(h, rs, k + 1)
  {
    hide Answer;
    AnswerReady(h, rs[0]);
    var rest := rs[1..];
    assert rest[k] == rs[k + 1];
    if Repeated(rest, k) {
      var j :| 0 <= j < k && rest[j].tag == rest[k].tag;
      assert rs[j + 1] == rest[j];
    }
    if Repeated(rs, k + 1) && rs[k + 1].tag != rs[0].tag {
      var j :| 0 <= j < k + 1 && rs[j].tag == rs[k + 1].tag;
      assert rest[j - 1] == rs[j];
    }
  }

  /** The batch accepts responses up to the first that is not good. A (tag, sn) that occurs twice is not
      good the second time. */
  lemma {:induction false} BatchStopsAtFirstBad(h: Host, rs: seq<Rsp>)
    requires Ready(h)
    ensures var (v, n) := AnswerAll(h, rs);
      Ready(v) && (forall k :: 0 <= k < n ==> Good(h, rs, k)) && (n < |rs| ==> !Good(h, rs, n))
    decreases |rs|
  {
    hide Ready, Answer, Good, Addressed;
    if rs != [] && Accepts(h, rs[0]) {
      var g, rest, n := Answer(h, rs[0]), rs[1..], AnswerAll(h, rs).1;
      AnswerReady(h, rs[0]);
      BatchStopsAtFirstBad(g, rest);
      FirstIsGood(h, rs);
      forall k | 0 <= k < n ensures Good(h, rs, k) {
        if k > 0 { GoodShifts(h, rs, k - 1); }
      }
      if n < |rs| { GoodShifts(h, rs, n - 1); }
    } else if rs != [] {
      FirstIsGood(h, rs);
    }
  }

  /** It completes exactly the accepted ones, in order, each with its own result. */
  lemma {:induction false} BatchCompletes(h: Host, rs: seq<Rsp>)
    requires Ready(h)
    ensures var (v, n) := AnswerAll(h, rs); v.done == h.done + Completions(h, rs[..n])
    decreases |rs|
  {
    hide Ready, Answer, Addressed, CompletionOf;
    if rs != [] && Accepts(h, rs[0]) {
      var g, rest, n := Answer(h, rs[0]), rs[1..], AnswerAll(h, rs).1;
      AnswerReady(h, rs[0]);
      BatchCompletes(g, rest);
      assert rs[..n] == [rs[0]] + rest[..n - 1];
      SameCompletions(h, g, rs[0], rest[..n - 1]);
    }
  }

  lemma FirstIsGood(h: Host, rs: seq<Rsp>)
    requires rs != []
    ensures Good(h, rs, 0) <==> Accepts(h, rs[0])
  {}

  lemma SameCompletions(h: Host, g: Host, r: Rsp, rest: seq<Rsp>)
    requires Ready(h) && Accepts(h, r) && g == Answer(h, r)
    ensures Completions(h, [r] + rest) == [CompletionOf(h, r)] + Completions(g, rest)
  {
    forall i | 0 <= i < |rest| ensures CompletionOf(h, rest[i]) == CompletionOf(g, rest[i]) {
      assert forall t: nat :: IdOf(g, t) == IdOf(h, t);
    }
  }

  /** What the batch leaves is what its accepted prefix alone would leave. */
  lemma {:induction false} OnlyThePrefixCounts(h: Host, rs: seq<Rsp>)
    ensures var n := AnswerAll(h, rs).1; AnswerAll(h, rs[..n]) == AnswerAll(h, rs)
    decreases |rs|
  {
    hide Answer, Addressed;
    if rs != [] && Accepts(h, rs[0]) {
      var n := AnswerAll(h, rs).1;
      OnlyThePrefixCounts(Answer(h, rs[0]), rs[1..]);
      assert rs[..n][1..] == rs[1..][..n - 1];
    }
  }

  /** The host awaits every response, and no tag occurs twice. */
  ghost predicate AllAwaited(h: Host, rs: seq<Rsp>) {
    (forall k :: 0 <= k < |rs| ==> Accepts(h, rs[k])) && forall j, k :: 0 <= j < k < |rs| ==> rs[j].tag != rs[k].tag
  }

  /** A batch goes through if and only if the host awaits every response and no tag occurs twice. */
  lemma BatchSucceedsIff(h: Host, rs: seq<Rsp>)
    requires Ready(h)
    ensures AnswerAll(h, rs).1 == |rs| <==> AllAwaited(h, rs)
  {
    hide Ready, AnswerAll, AllAwaited, Good;
    BatchStopsAtFirstBad(h, rs);
    AllGood(h, rs);
  }

  lemma AllGood(h: Host, rs: seq<Rsp>)
    ensures AllAwaited(h, rs) <==> forall k :: 0 <= k < |rs| ==> Good(h, rs, k)
  {
    hide Addressed;
    if forall k :: 0 <= k < |rs| ==> Good(h, rs, k) {
      forall k | 0 <= k < |rs| ensures Accepts(h, rs[k]) { assert Good(h, rs, k); }
      forall j, k | 0 <= j < k < |rs| ensures rs[j].tag != rs[k].tag { assert Good(h, rs, k); }
    }
  }

  /** Slots the batch does not name keep everything, their place in the queues included. */
  lemma {:induction false} BatchTouchesNothingElse(h: Host, rs: seq<Rsp>, t: nat)
    requires Ready(h) && t < |h.slots| && forall r :: r in rs ==> r.tag != t
    ensures var v := AnswerAll(h, rs).0;
      t < |v.slots| && v.slots[t] == h.slots[t] && (t in v.bits <==> t in h.bits) && (v.Listed(t) <==> h.Listed(t))
    decreases |rs|
  {
    hide Answer, Ready;
    if rs != [] && Accepts(h, rs[0]) {
      AnswerReady(h, rs[0]);
      BatchTouchesNothingElse(Answer(h, rs[0]), rs[1..], t);
    }
  }

  /** Each accepted response leaves its slot off the queues, marked, and with one reference less. */
  lemma {:induction false} BatchReleases(h: Host, rs: seq<Rsp>, k: nat)
    requires Ready(h) && k < AnswerAll(h, rs).1
    ensures var v, n := AnswerAll(h, rs).0, AnswerAll(h, rs).1;
      && v.ioRunning == h.ioRunning - n && rs[k].tag < |h.slots| == |v.slots|
      && v.slots[rs[k].tag] == Answered(h.slots[rs[k].tag]) && !v.Listed(rs[k].tag)
    decreases |rs|
  {
    hide Ready, Answer, Good;
    var g, rest, n := Answer(h, rs[0]), rs[1..], AnswerAll(h, rs).1;
    AnswerReady(h, rs[0]);
    BatchCounts(h, rs);
    if k > 0 {
      BatchReleases(g, rest, k - 1);
      BatchDistinct(h, rs, k);
      assert rest[k - 1] == rs[k];
    } else {
      OnlyThePrefixCounts(g, rest);
      forall r | r in rest[..n - 1] ensures r.tag != rs[0].tag {
        var j :| 0 <= j < n - 1 && rest[..n - 1][j] == r;
        BatchDistinct(h, rs, j + 1);
      }
      BatchTouchesNothingElse(g, rest[..n - 1], rs[0].tag);
    }
  }

  /** The running count falls by the number of accepted responses. */
  lemma {:induction false} BatchCounts(h: Host, rs: seq<Rsp>)
    requires Ready(h)
    ensures AnswerAll(h, rs).0.ioRunning == h.ioRunning - AnswerAll(h, rs).1 && |AnswerAll(h, rs).0.slots| == |h.slots|
    decreases |rs|
  {
    hide Ready, Answer, Addressed;
    if rs != [] && Accepts(h, rs[0]) {
      AnswerReady(h, rs[0]);
      BatchCounts(Answer(h, rs[0]), rs[1..]);
    }
  }

  lemma BatchDistinct(h: Host, rs: seq<Rsp>, k: nat)
    requires Ready(h) && 0 < k < AnswerAll(h, rs).1
    ensures rs[k].tag != rs[0].tag
  {
    BatchStopsAtFirstBad(h, rs);
    hide Ready, AnswerAll;
    assert Good(h, rs, k);
  }

  // ----- The sweep -----

  /** One turn of a loop of `vsc_each_queue_remove`, callback included. */
  function SweepOne(h: Host, q: QueueName, hb: HostByte): (v: Host)
    requires QueueOf(h, q) != [] && QueueOf(h, q)[0] < h.Nr()
    ensures |v.slots| == |h.slots|
  {
    var t := QueueOf(h, q)[0];
    var a := GetRef(TakeOff(h, t), t);
    PutRef(PutRef(CalledBack(a, t, q, hb), t), t)
  }

  /** The callback up to its put. */
  function CalledBack(h: Host, t: nat, q: QueueName, hb: HostByte): (v: Host)
    requires t < h.Nr()
    ensures |v.slots| == |h.slots|
  {
    var b := if q == REQQ then h.(qdepth := Dec32(h.qdepth)) else h;
    match b.slots[t].scsiCmd case None => b case Some(sc) => Finish(b, sc, Outcome(hb, 0))
  }

  /** The turn, spelt out for a live command. */
  lemma SweepOneIs(h: Host, q: QueueName, hb: HostByte)
    requires Ready(h) && QueueOf(h, q) != []
    ensures QueueOf(h, q)[0] < h.Nr() && Ready(SweepOne(h, q, hb))
    ensures var t, v := QueueOf(h, q)[0], SweepOne(h, q, hb);
      && QueueOf(v, q) == QueueOf(h, q)[1..] && (forall p :: p != q ==> QueueOf(v, p) == QueueOf(h, p))
      && v.slots == h.slots[t := h.slots[t].(refcnt := h.slots[t].refcnt - 1)]
      && v.bits == (if h.slots[t].refcnt == 1 then h.bits - {t} else h.bits)
      && v.cmdSn == h.cmdSn && v.done == h.done + [Completion(IdOf(h, t), Outcome(hb, 0))]
  {
    hide QueuesOk, Unlink;
    HeadInRange(h, q);
    var t := QueueOf(h, q)[0];
    TakeOffKeepsQueues(h, t);
    UnlinkIs(h, t);
    UnlinkHead(h, q);
    TakeOffIs(h, t);
    SweepOneFields(h, q, hb);
    hide TakeOff, SweepOne;
    var v := SweepOne(h, q, hb);
    RefsKeepQueues(TakeOff(h, t), v);
    HeadsInRange(v);
    forall u: nat | v.Listed(u) ensures v.slots[u].scsiCmd.Some? && v.slots[u].refcnt > 0 {
      assert TakeOff(h, t).Listed(u);
      assert Unlink(h, t).Listed(u);
      assert h.Listed(u);
    }
  }

  lemma SweepOneFields(h: Host, q: QueueName, hb: HostByte)
    requires QueueOf(h, q) != [] && QueueOf(h, q)[0] < h.Nr()
    requires h.slots[QueueOf(h, q)[0]].scsiCmd.Some? && h.slots[QueueOf(h, q)[0]].refcnt > 0
    ensures var t, v := QueueOf(h, q)[0], SweepOne(h, q, hb);
      var u := TakeOff(h, t);
      && v.reqQ == u.reqQ && v.cmpQ == u.cmpQ && v.rspQ == u.rspQ && v.ioRunning == u.ioRunning
      && v.qdepth == (if q == REQQ then Dec32(h.qdepth) else h.qdepth)
      && v.slots == h.slots[t := h.slots[t].(refcnt := h.slots[t].refcnt - 1)]
      && v.bits == (if h.slots[t].refcnt == 1 then h.bits - {t} else h.bits)
      && v.cmdSn == h.cmdSn && v.done == h.done + [Completion(IdOf(h, t), Outcome(hb, 0))]
  {
    TakeOffIs(h, QueueOf(h, q)[0]);
    hide TakeOff;
  }

  lemma RefsKeepQueues(h: Host, v: Host)
    requires QueuesOk(h) && v.reqQ == h.reqQ && v.cmpQ == h.cmpQ && v.rspQ == h.rspQ && v.ioRunning == h.ioRunning
    requires |v.slots| == |h.slots| && forall t :: 0 <= t < |h.slots| ==> v.slots[t].stat == h.slots[t].stat
    ensures QueuesOk(v)
  {}

  lemma UnlinkHead(h: Host, q: QueueName)
    requires QueuesOk(h) && QueueOf(h, q) != []
    ensures QueueOf(Unlink(h, QueueOf(h, q)[0]), q) == QueueOf(h, q)[1..]
    ensures forall p :: p != q ==> QueueOf(Unlink(h, QueueOf(h, q)[0]), p) == QueueOf(h, p)
  {
    var t := QueueOf(h, q)[0];
    assert t in QueueOf(h, q);
    forall p | p != q ensures Remove(QueueOf(h, p), t) == QueueOf(h, p) {
      RemoveIs(QueueOf(h, p), t);
    }
  }

  /** One loop of `vsc_each_queue_remove`: its queue, front to back. */
  ghost function SweepQueue(h: Host, q: QueueName, hb: HostByte): (v: Host)
    requires Ready(h)
    ensures Ready(v)
    decreases |QueueOf(h, q)|
  {
    if QueueOf(h, q) == [] then h
    else
      SweepOneIs(h, q, hb);
      SweepQueue(SweepOne(h, q, hb), q, hb)
  }

  /** `vsc_each_queue_remove`: the queues in the direction commands flow. */
  ghost function SweepAll(h: Host, hb: HostByte): (v: Host)
    requires Ready(h)
    ensures Ready(v)
  {
    SweepQueue(SweepQueue(SweepQueue(h, REQQ, hb), COMQ, hb), RSPQ, hb)
  }

  /** The completions of the commands of `q`, all with the same result. */
  ghost function Fates(h: Host, q: seq<nat>, hb: HostByte): (r: seq<Completion>)
    ensures |r| == |q| && forall i :: 0 <= i < |q| ==> r[i] == Completion(IdOf(h, q[i]), Outcome(hb, 0))
  {
    seq(|q|, i requires 0 <= i < |q| => Completion(IdOf(h, q[i]), Outcome(hb, 0)))
  }

  /** Each slot of `gone` has lost one reference, its last one freeing the slot. */
  ghost predicate Released(h: Host, v: Host, gone: seq<nat>) {
    && |v.slots| == |h.slots| && v.cmdSn == h.cmdSn
    && (forall t: nat :: t < |h.slots| ==>
         v.slots[t] == if t in gone then h.slots[t].(refcnt := h.slots[t].refcnt - 1) else h.slots[t])
    && (forall t: nat :: t in v.bits <==> t in h.bits && !(t < |h.slots| && t in gone && h.slots[t].refcnt == 1))
  }

  /** The commands of `gone`, in that order, have been completed and released. */
  ghost predicate Swept(h: Host, v: Host, gone: seq<nat>, hb: HostByte) {
    v.done == h.done + Fates(h, gone, hb) && Released(h, v, gone)
  }

  ghost predicate QueueSwept(h: Host, v: Host, q: QueueName, hb: HostByte) {
    QueueOf(v, q) == [] && (forall p :: p != q ==> QueueOf(v, p) == QueueOf(h, p)) && Swept(h, v, QueueOf(h, q), hb)
  }

  lemma Appended<T>(d: seq<T>, a: seq<T>, b: seq<T>)
    ensures d + (a + b) == d + a + b
  {}

  lemma SweptTwice(h: Host, k: Host, v: Host, a: seq<nat>, b: seq<nat>, hb: HostByte)
    requires Swept(h, k, a, hb) && Swept(k, v, b, hb) && forall t :: t in b ==> t !in a
    ensures Swept(h, v, a + b, hb)
  {
    hide Fates, IdOf;
    assert Fates(k, b, hb) == Fates(h, b, hb) by { SameFates(h, k, b, hb); }
    ReleasedTwice(h, k, v, a, b);
    hide Released;
    FatesConcat(h, a, b, hb);
    Appended(h.done, Fates(h, a, hb), Fates(h, b, hb));
  }

  lemma {:induction false} SweepQueueIs(h: Host, q: QueueName, hb: HostByte)
    requires Ready(h)
    ensures QueueSwept(h, SweepQueue(h, q, hb), q, hb)
    decreases |QueueOf(h, q)|
  {
    hide Ready, SweepOne, QueueSwept;
    if QueueOf(h, q) == [] {
      NothingSwept(h, q, hb);
    } else {
      SweepOneIs(h, q, hb);
      var k := SweepOne(h, q, hb);
      SweepQueueIs(k, q, hb);
      HeadOnce(h, q);
      assert Swept(h, k, [QueueOf(h, q)[0]], hb);
      hide Swept;
      SweptFirst(h, k, SweepQueue(k, q, hb), q, hb);
    }
  }

  lemma NothingSwept(h: Host, q: QueueName, hb: HostByte)
    requires QueueOf(h, q) == []
    ensures QueueSwept(h, h, q, hb)
  {}

  lemma HeadOnce(h: Host, q: QueueName)
    requires Ready(h) && QueueOf(h, q) != []
    ensures QueueOf(h, q)[0] !in QueueOf(h, q)[1..]
  {}

  lemma SweptFirst(h: Host, k: Host, v: Host, q: QueueName, hb: HostByte)
    requires QueueOf(h, q) != [] && QueueOf(h, q)[0] < h.Nr() && QueueOf(h, q)[0] !in QueueOf(h, q)[1..]
    requires QueueOf(k, q) == QueueOf(h, q)[1..] && forall p :: p != q ==> QueueOf(k, p) == QueueOf(h, p)
    requires Swept(h, k, [QueueOf(h, q)[0]], hb) && QueueSwept(k, v, q, hb)
    ensures QueueSwept(h, v, q, hb)
  {
    hide Swept;
    assert QueueOf(h, q) == [QueueOf(h, q)[0]] + QueueOf(h, q)[1..];
    SweptTwice(h, k, v, [QueueOf(h, q)[0]], QueueOf(h, q)[1..], hb);
  }

  /** The sweep, run alone, empties the host: every queued command is completed once with the callback's
      result, in the order `reqQ`, `cmpQ`, `rspQ`, and loses the reference its queue entry held. */
  lemma SweepAllIs(h: Host, hb: HostByte)
    requires Ready(h)
    ensures var v := SweepAll(h, hb);
      && v.reqQ == v.cmpQ == v.rspQ == [] && v.ioRunning == 0
      && Swept(h, v, h.reqQ + h.cmpQ + h.rspQ, hb)
  {
    var a := SweepQueue(h, REQQ, hb);
    var b := SweepQueue(a, COMQ, hb);
    var v := SweepQueue(b, RSPQ, hb);
    SweepQueueIs(h, REQQ, hb);
    SweepQueueIs(a, COMQ, hb);
    SweepQueueIs(b, RSPQ, hb);
    QueuesApart(h);
    hide Ready, SweepQueue, Swept;
    ThreeSwept(h, a, b, v, hb);
    EmptyRuns(v);
  }

  lemma ThreeSwept(h: Host, a: Host, b: Host, v: Host, hb: HostByte)
    requires QueueSwept(h, a, REQQ, hb) && QueueSwept(a, b, COMQ, hb) && QueueSwept(b, v, RSPQ, hb)
    requires (forall t :: t in h.cmpQ ==> t !in h.reqQ) && forall t :: t in h.rspQ ==> t !in h.reqQ + h.cmpQ
    ensures v.reqQ == v.cmpQ == v.rspQ == [] && Swept(h, v, h.reqQ + h.cmpQ + h.rspQ, hb)
  {
    hide Swept;
    assert QueueOf(a, REQQ) == QueueOf(b, REQQ) == QueueOf(v, REQQ) == [];
    assert QueueOf(a, COMQ) == QueueOf(h, COMQ) && QueueOf(v, COMQ) == QueueOf(b, COMQ) == [];
    assert QueueOf(b, RSPQ) == QueueOf(a, RSPQ) == QueueOf(h, RSPQ);
    SweptTwice(h, a, b, h.reqQ, h.cmpQ, hb);
    SweptTwice(h, b, v, h.reqQ + h.cmpQ, h.rspQ, hb);
  }

  lemma EmptyRuns(h: Host)
    requires Ready(h) && h.reqQ == h.cmpQ == h.rspQ == []
    ensures h.ioRunning == 0
  {}

  lemma QueuesApart(h: Host)
    requires Ready(h)
    ensures forall t :: t in h.cmpQ ==> t !in h.reqQ
    ensures forall t :: t in h.rspQ ==> t !in h.reqQ + h.cmpQ
  {}

  lemma ReleasedTwice(h: Host, k: Host, v: Host, a: seq<nat>, b: seq<nat>)
    requires Released(h, k, a) && Released(k, v, b) && forall t :: t in b ==> t !in a
    ensures Released(h, v, a + b)
  {}

  lemma SameFates(h: Host, k: Host, q: seq<nat>, hb: HostByte)
    requires |h.slots| == |k.slots| && forall t: nat :: t < |h.slots| ==> k.slots[t].scsiCmd == h.slots[t].scsiCmd
    ensures Fates(k, q, hb) == Fates(h, q, hb)
  {}

  lemma FatesConcat(h: Host, a: seq<nat>, b: seq<nat>, hb: HostByte)
    ensures Fates(h, a + b, hb) == Fates(h, a, hb) + Fates(h, b, hb)
  {}

  // ----- The abort handler -----

  /** `vsc_eh_abort` on a live command, no other call in between. `slot`: an event slot was free;
      `success`: the verdict of the event when the wait is over. */
  function AbortCall(h: Host, t: nat, slot: bool, success: bool): (v: Host)
    requires t < h.Nr()
  {
    var g := GetRef(h, t);
    if slot && success && g.Listed(t) then
      PutRef(Finish(PutRef(TakeOff(g, t), t), IdOf(h, t), Outcome(DID_ABORT, 0)), t)
    else PutRef(g, t)
  }

  /** Confirmed, with an event slot: the command is on no queue, completed at most once more, with DID_ABORT,
      and only if it was still queued. Otherwise the handler leaves no trace, references included. */
  lemma AbortCallIs(h: Host, t: nat, slot: bool, success: bool)
    requires Ready(h) && t < h.Nr() && h.slots[t].refcnt > 0
    ensures var v := AbortCall(h, t, slot, success);
      && Ready(v)
      && (!(slot && success) || !h.Listed(t) ==> v == h)
      && (slot && success ==> !v.Listed(t))
      && (slot && success && h.Listed(t) ==>
            && v.done == h.done + [Completion(IdOf(h, t), Outcome(DID_ABORT, 0))] && Released(h, v, [t])
            && v.reqQ == Remove(h.reqQ, t) && v.cmpQ == Remove(h.cmpQ, t) && v.rspQ == Remove(h.rspQ, t)
            && v.ioRunning == h.ioRunning - 1 && v.qdepth == h.qdepth)
  {
    var g, v := GetRef(h, t), AbortCall(h, t, slot, success);
    if slot && success && h.Listed(t) {
      RefsKeepQueues(h, g);
      TakeOffKeepsQueues(g, t);
      UnlinkIs(g, t);
      RunsSome(h);
      TakeOffIs(g, t);
      hide Remove;
      var u := TakeOff(g, t);
      assert v.reqQ == u.reqQ == Remove(h.reqQ, t) && v.cmpQ == u.cmpQ && v.rspQ == u.rspQ;
      hide TakeOff;
      RefsKeepQueues(u, v);
      HeadsInRange(v);
      forall x: nat | v.Listed(x) ensures v.slots[x].scsiCmd.Some? && v.slots[x].refcnt > 0 {
        assert u.Listed(x);
        assert h.Listed(x) && x != t;
      }
    } else {
      assert v.slots == h.slots;
    }
  }

  lemma RunsSome(h: Host)
    requires QueuesOk(h)
    ensures forall t: nat :: h.Listed(t) ==> 0 < h.ioRunning
  {}
}
