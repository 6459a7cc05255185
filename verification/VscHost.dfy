/** The host object of the driver: its pool, queues and counters, updated in place. Every method is one
    driver call run alone, and says which function of the host's value it computes. */
module VscHost {
  import opened Seqs
  import opened HostState
  import opened Lifecycle
  import opened Calls
  import opened Bitmap
  import opened Errors
  import opened EventWait

  /** A command slot of the pool. */
  class Cmnd {
    const index: nat
    var stat: Stat
    var cmdSn: nat
    var refcnt: int
    var scsiCmd: Option<nat>

    constructor (index: nat)
      ensures this.index == index && Value() == Slot(INIT, 0, 0, None)
    {
      this.index := index;
      stat, cmdSn, refcnt, scsiCmd := INIT, 0, 0, None;
    }

    function Value(): Slot
      reads this
    {
      Slot(stat, cmdSn, refcnt, scsiCmd)
    }
  }

  /** What the target reads of one command, and of a batch: `count` and `leftCount` travel in the first message. */
  datatype Msg = Msg(cmdSn: nat, tag: nat)

  datatype MsgBatch = MsgBatch(msgs: seq<Msg>, count: nat, leftCount: nat)

  function Messages(slots: seq<Slot>, q: seq<nat>): (r: seq<Msg>)
    requires InRange(q, |slots|)
    ensures |r| == |q| && forall i :: 0 <= i < |q| ==> r[i] == Msg(slots[q[i]].cmdSn, q[i])
  {
    seq(|q|, i requires 0 <= i < |q| => Msg(slots[q[i]].cmdSn, q[i]))
  }

  class Ctrl {
    const tbl: seq<Cmnd>
    const bits: PoolBits
    var reqQ: seq<nat>
    var cmpQ: seq<nat>
    var rspQ: seq<nat>
    var qdepth: nat
    var ioRunning: nat
    var cmdSn: nat
    var done: seq<Completion>

    ghost predicate Valid()
      reads bits.words
    {
      |tbl| == bits.nr && bits.Valid() && forall i :: 0 <= i < |tbl| ==> tbl[i].index == i
    }

    ghost function Slots(): (r: seq<Slot>)
      reads tbl
      ensures |r| == |tbl| && forall i :: 0 <= i < |tbl| ==> r[i] == tbl[i].Value()
    {
      seq(|tbl|, i requires 0 <= i < |tbl| reads tbl => tbl[i].Value())
    }

    /** The host as a value. */
    ghost function View(): Host
      requires Valid()
      reads this, tbl, bits.words
    {
      Host(Slots(), bits.Elements(), reqQ, cmpQ, rspQ, qdepth, ioRunning, cmdSn, done)
    }

    constructor (nrCmds: nat)
      ensures Valid() && fresh(tbl) && fresh(bits) && fresh(bits.words) && |tbl| == nrCmds
      ensures View() == Host(seq(nrCmds, i => Slot(INIT, 0, 0, None)), {}, [], [], [], 0, 0, 0, [])
    {
      reqQ, cmpQ, rspQ := [], [], [];
      qdepth, ioRunning, cmdSn, done := 0, 0, 0, [];
      var b := new PoolBits(nrCmds);
      var pool: seq<Cmnd> := [];
      while |pool| < nrCmds
        invariant |pool| <= nrCmds && fresh(pool) && b.Valid() && b.Elements() == {}
        invariant forall i :: 0 <= i < |pool| ==> pool[i].index == i && pool[i].Value() == Slot(INIT, 0, 0, None)
      {
        var c := new Cmnd(|pool|);
        pool := pool + [c];
      }
      bits, tbl := b, pool;
    }

    method CmdAlloc() returns (c: Option<nat>)
      requires Valid()
      modifies this, tbl, bits.words
      ensures Valid() && View() == Alloc(old(View())).0 && c == Alloc(old(View())).1
    {
      var i := bits.Claim();
      if i == bits.nr {
        return None;
      }
      assert View() == old(View()).(bits := old(bits.Elements()) + {i});
      CmdInit(i);
      c := Some(i);
    }

    method CmdInit(i: nat)
      requires Valid() && i < |tbl|
      modifies this`cmdSn, tbl
      ensures Valid()
      ensures var sn := (old(cmdSn) + 1) % TWO64;
        View() == old(View()).(cmdSn := sn, slots := old(View()).slots[i := Slot(INIT, sn % TWO32, 1, None)])
    {
      cmdSn := (cmdSn + 1) % TWO64;
      tbl[i].stat, tbl[i].cmdSn, tbl[i].refcnt, tbl[i].scsiCmd := INIT, cmdSn % TWO32, 1, None;
    }

    method CmdGet(t: nat)
      requires Valid() && t < |tbl|
      modifies tbl
      ensures Valid() && View() == GetRef(old(View()), t)
    {
      tbl[t].refcnt := tbl[t].refcnt + 1;
    }

    method CmdPut(t: nat)
      requires Valid() && t < |tbl|
      modifies tbl, bits.words
      ensures Valid() && View() == PutRef(old(View()), t)
    {
      tbl[t].refcnt := tbl[t].refcnt - 1;
      if tbl[t].refcnt == 0 {
        bits.Clear(t);
      }
    }

    /** `removeQ`, on whichever queue the slot's node is linked. */
    method RemoveQ(t: nat)
      requires Valid()
      modifies this`reqQ, this`cmpQ, this`rspQ
      ensures Valid() && View() == Unlink(old(View()), t)
    {
      reqQ, cmpQ, rspQ := Remove(reqQ, t), Remove(cmpQ, t), Remove(rspQ, t);
    }

    method ScsiDone(sc: nat, outcome: Outcome)
      requires Valid()
      modifies this`done
      ensures Valid() && View() == Finish(old(View()), sc, outcome)
    {
      done := done + [Completion(sc, outcome)];
    }

    method StartIo()
      requires Valid() && InRange(reqQ, |tbl|)
      modifies this, tbl
      ensures Valid() && View() == StartAll(old(View()))
    {
      while reqQ != []
        invariant Valid() && InRange(reqQ, |tbl|) && StartAll(View()) == StartAll(old(View()))
        decreases |reqQ|
      {
        StartHead();
      }
    }

    /** One turn of the start loop. */
    method StartHead()
      requires Valid() && reqQ != [] && reqQ[0] < |tbl|
      modifies this`reqQ, this`qdepth, this`cmpQ, tbl
      ensures Valid() && View() == StartOne(old(View()))
    {
      var c := reqQ[0];
      reqQ := reqQ[1..];
      qdepth := Dec32(qdepth);
      tbl[c].stat := REQUEST;
      cmpQ := cmpQ + [c];
    }

    /** The loops that write `stat` over a whole list, outside the queues. */
    method MarkAll(q: seq<nat>, s: Stat)
      requires Valid() && InRange(q, |tbl|)
      modifies tbl
      ensures Valid() && View() == old(View()).(slots := SetStats(old(View()).slots, q, s))
    {
      hide SetStats;
      ghost var was, now := Slots(), Slots();
      StatsNone(was, s);
      for k := 0 to |q|
        invariant Slots() == now == SetStats(was, q[..k], s)
      {
        var c := q[k];
        assert q[..k + 1] == q[..k] + [c];
        StatsSnoc(was, q[..k], c, s);
        tbl[c].stat := s;
        now := now[c := now[c].(stat := s)];
        assert Slots() == now;
      }
      assert q[..|q|] == q;
    }

    method StartIoNew()
      requires Valid() && InRange(reqQ, |tbl|)
      modifies this, tbl
      ensures Valid() && View() == StartBatch(old(View()))
    {
      hide SetStats;
      var temp := reqQ;
      reqQ := [];
      qdepth := 0;
      assert View() == old(View()).(reqQ := [], qdepth := 0);
      MarkAll(temp, REQUEST);
      cmpQ := cmpQ + temp;
    }

    method EnqueueCmdAndStartIo(t: nat)
      requires Valid() && InRange(reqQ, |tbl|) && t < |tbl|
      modifies this, tbl
      ensures Valid() && View() == StartAll(Enqueue(old(View()), t))
    {
      reqQ := reqQ + [t];
      qdepth := Inc32(qdepth);
      ioRunning := Inc32(ioRunning);
      assert View() == Enqueue(old(View()), t);
      StartIo();
    }

    method Submit(sc: nat) returns (queued: bool)
      requires Valid() && InRange(reqQ, |tbl|)
      modifies this, tbl, bits.words
      ensures Valid() && (View(), queued) == SubmitCall(old(View()), sc)
    {
      hide StartAll;
      ghost var was := View();
      var c := CmdAlloc();
      match c {
        case None =>
          queued := false;
        case Some(i) =>
          tbl[i].scsiCmd := Some(sc);
          assert View() == SetScsiCmd(Alloc(was).0, i, sc);
          EnqueueCmdAndStartIo(i);
          queued := true;
      }
    }

    /** The first loop of the batch read: up to four commands move to `rspQ`. */
    method TakeBatch() returns (taken: seq<nat>)
      requires Valid()
      modifies this`cmpQ, this`rspQ
      ensures Valid() && taken == Batch(old(View()))
      ensures View() == old(View()).(cmpQ := old(cmpQ)[BatchSize(old(View()))..], rspQ := old(rspQ) + taken)
    {
      taken := [];
      while cmpQ != []
        invariant |taken| <= |old(cmpQ)| && |taken| < MAX_BATCH
        invariant taken == old(cmpQ)[..|taken|] && cmpQ == old(cmpQ)[|taken|..] && rspQ == old(rspQ) + taken
        decreases |cmpQ|
      {
        var c := cmpQ[0];
        cmpQ := cmpQ[1..];
        rspQ := rspQ + [c];
        taken := taken + [c];
        if |taken| >= MAX_BATCH {
          break;
        }
      }
    }

    /** The way back when the copy to the user faults: each command goes to the head of `cmpQ`. */
    method PutBack(taken: seq<nat>, ghost rest: seq<nat>, ghost waiting: seq<nat>)
      requires Valid() && InRange(taken, |tbl|) && NoDup(taken)
      requires cmpQ == rest && rspQ == waiting + taken
      requires forall t :: t in taken ==> t !in rest && t !in waiting && t !in reqQ
      modifies tbl, this`reqQ, this`cmpQ, this`rspQ
      ensures Valid()
      ensures View() == old(View()).(slots := SetStats(old(View()).slots, taken, REQUEST),
                                     cmpQ := Reverse(taken) + rest, rspQ := waiting)
    {
      hide Remove, Reverse, NoDup, SetStats;
      MarkAll(taken, REQUEST);
      for k := 0 to |taken|
        invariant reqQ == old(reqQ) && cmpQ == Reverse(taken[..k]) + rest && rspQ == waiting + taken[k..]
        modifies this`reqQ, this`cmpQ, this`rspQ
      {
        BackStep(taken, k, reqQ, rest, waiting);
        RemoveQ(taken[k]);
        cmpQ := [taken[k]] + cmpQ;
      }
      assert taken[..|taken|] == taken && taken[|taken|..] == [];
    }

    method GetMulti(lengthOk: bool, fault: bool) returns (r: Result<MsgBatch>)
      requires Valid() && Ready(View())
      modifies this, tbl
      ensures Valid() && Ready(View())
      ensures !lengthOk ==> View() == old(View()) && r == Err(EINVAL)
      ensures lengthOk && old(cmpQ) == [] ==> View() == old(View()) && r == Err(ENODATA)
      ensures lengthOk && old(cmpQ) != [] ==>
        && View() == GetBatch(old(View()), fault) && InRange(Batch(old(View())), |tbl|)
        && r == if fault then Err(EFAULT) else
             var b := Batch(old(View())); Ok(MsgBatch(Messages(old(Slots()), b), |b|, |old(cmpQ)| - |b|))
    {
      hide Ready, GetBatch, Messages, Batch, InRange;
      if !lengthOk {
        return Err(EINVAL);
      }
      if cmpQ == [] {
        return Err(ENODATA);
      }
      var taken, leftCount, msgs := ReadBatch(fault);
      r := if fault then Err(EFAULT) else Ok(MsgBatch(msgs, |taken|, leftCount));
    }

    /** The batch read past its checks: move, mark, describe, and undo if the copy faults. */
    method ReadBatch(fault: bool) returns (taken: seq<nat>, leftCount: nat, msgs: seq<Msg>)
      requires Valid() && Ready(View())
      modifies this, tbl
      ensures Valid() && Ready(View()) && View() == GetBatch(old(View()), fault)
      ensures taken == Batch(old(View())) && InRange(taken, |tbl|) && leftCount == |old(cmpQ)| - |taken|
      ensures msgs == Messages(old(Slots()), taken)
    {
      hide Ready, QueuesOk, SetStats, NoDup, Reverse;
      ghost var was := View();
      BatchParts(was);
      GetReady(was, fault);
      taken := TakeBatch();
      leftCount := |cmpQ|;
      MarkAll(taken, READ_COMP);
      ghost var marked := View();
      assert marked == was.(slots := SetStats(was.slots, taken, READ_COMP), cmpQ := cmpQ, rspQ := was.rspQ + taken);
      msgs := ReadMessages(taken);
      assert msgs == Messages(was.slots, taken);
      if fault {
        StatsTwice(was.slots, taken, READ_COMP, REQUEST);
        PutBack(taken, cmpQ, was.rspQ);
      }
      assert View() == GetBatch(was, fault);
    }

    method ReadMessages(q: seq<nat>) returns (msgs: seq<Msg>)
      requires InRange(q, |tbl|)
      ensures msgs == Messages(Slots(), q)
    {
      msgs := [];
      for k := 0 to |q|
        invariant msgs == Messages(Slots(), q)[..k]
      {
        msgs := msgs + [Msg(tbl[q[k]].cmdSn, q[k])];
      }
    }

    predicate Linked(t: nat)
      reads this
    {
      t in reqQ || t in cmpQ || t in rspQ
    }

    method ResponseScsiCmd(rsp: Rsp) returns (r: Result<nat>)
      requires Valid() && Ready(View())
      modifies this, tbl, bits.words
      ensures Valid() && Ready(View())
      ensures Accepts(old(View()), rsp) ==> View() == Answer(old(View()), rsp) && r == Ok(0)
      ensures !Accepts(old(View()), rsp) ==> View() == old(View()) && r == Err(EIO)
    {
      hide Ready, Unlink;
      ghost var was := View();
      if rsp.tag >= |tbl| {
        return Err(EIO);
      }
      var c := tbl[rsp.tag];
      if c.stat != READ_COMP || c.cmdSn != rsp.cmdSn {
        return Err(EIO);
      }
      if !Linked(rsp.tag) {
        return Err(EIO);
      }
      AnswerReady(was, rsp);
      LiveRequest(was, rsp.tag);
      RemoveQ(rsp.tag);
      c.stat := RESP;
      var sc := c.scsiCmd.value;
      ioRunning := Dec32(ioRunning);
      assert View() == SetStat(TakeOff(was, rsp.tag), rsp.tag, RESP) && sc == IdOf(was, rsp.tag);
      ScsiDone(sc, OutcomeOf(rsp));
      CmdPut(rsp.tag);
      assert View() == Answer(was, rsp);
      r := Ok(0);
    }

    /** The response loop: it stops at the first response that fails. */
    method RespondEach(rsps: seq<Rsp>, cmdCount: int) returns (index: nat)
      requires Valid() && Ready(View()) && 0 < cmdCount <= |rsps|
      modifies this, tbl, bits.words
      ensures Valid() && Ready(View()) && (View(), index) == AnswerAll(old(View()), rsps[..cmdCount])
    {
      hide Ready, Accepts, Answer, AnswerAll;
      ghost var rs := rsps[..cmdCount];
      ghost var all := AnswerAll(View(), rs);
      index := 0;
      assert rs[index..] == rs;
      while index < cmdCount
        invariant Valid() && Ready(View()) && index <= cmdCount
        invariant all == (AnswerAll(View(), rs[index..]).0, index + AnswerAll(View(), rs[index..]).1)
      {
        AnswerStep(View(), rs[index..]);
        assert rs[index..][0] == rsps[index] && rs[index..][1..] == rs[index + 1..];
        var one := ResponseScsiCmd(rsps[index]);
        if one.Err? {
          return;
        }
        index := index + 1;
      }
      AnswerStep(View(), rs[index..]);
    }

    method ResponseMultiScsiCmd(rsps: seq<Rsp>, cmdCount: int, lengthOk: bool) returns (r: Result<nat>)
      requires Valid() && Ready(View()) && |rsps| == MAX_BATCH
      modifies this, tbl, bits.words
      ensures Valid() && Ready(View())
      ensures !lengthOk ==> View() == old(View()) && r == Err(EFAULT)
      ensures lengthOk ==>
        && View() == AnswerCounted(old(View()), rsps, cmdCount).0
        && r == if AnswerCounted(old(View()), rsps, cmdCount).1 then Ok(0)
                else Err(if 0 < cmdCount <= MAX_BATCH then EIO else EINVAL)
      ensures lengthOk && 0 < cmdCount <= 4 ==> (r.Ok? <==> AllAwaited(old(View()), rsps[..cmdCount]))
      ensures lengthOk && 0 < cmdCount && r.Ok? ==>
        done == old(done) + Completions(old(View()), rsps[..cmdCount])
      ensures lengthOk && (cmdCount <= 0 || cmdCount > 4) ==>
        View() == old(View()) && r == if cmdCount < 0 then Ok(0) else Err(EINVAL)
    {
      if !lengthOk {
        return Err(EFAULT);
      }
      if cmdCount == 0 || cmdCount > MAX_BATCH {
        return Err(EINVAL);
      }
      ghost var n := AnswerCountedIs(View(), rsps, cmdCount);
      hide Ready, AnswerAll, AllAwaited, Completions;
      if cmdCount > 0 {
        var answered := RespondEach(rsps, cmdCount);
        if answered < cmdCount {
          return Err(EIO);
        }
      }
      r := Ok(0);
    }

    function QueueHere(q: QueueName): seq<nat>
      reads this
    {
      match q case REQQ => reqQ case COMQ => cmpQ case RSPQ => rspQ
    }

    /** `vsc_abort_cmd_callback` (DID_SOFT_ERROR) and `vsc_requeue_cmd_callback` (DID_REQUEUE). */
    method Callback(t: nat, q: QueueName, hb: HostByte)
      requires Valid() && t < |tbl|
      modifies this, tbl, bits.words
      ensures Valid()
      ensures View() == PutRef(CalledBack(old(View()), t, q, hb), t)
    {
      if q == REQQ {
        qdepth := Dec32(qdepth);
      }
      match tbl[t].scsiCmd {
        case None =>
        case Some(sc) => ScsiDone(sc, Outcome(hb, 0));
      }
      CmdPut(t);
    }

    /** One of the three loops of `vsc_each_queue_remove`. */
    method RemoveEach(q: QueueName, hb: HostByte)
      requires Valid() && Ready(View())
      modifies this, tbl, bits.words
      ensures Valid() && Ready(View()) && View() == SweepQueue(old(View()), q, hb)
    {
      hide Ready, SweepOne;
      while QueueHere(q) != []
        invariant Valid() && Ready(View()) && SweepQueue(View(), q, hb) == SweepQueue(old(View()), q, hb)
        decreases |QueueHere(q)|
      {
        ghost var was := View();
        SweepOneIs(was, q, hb);
        var t := QueueHere(q)[0];
        RemoveHead(t, q, hb);
        assert View() == SweepOne(was, q, hb);
      }
    }

    method RemoveHead(t: nat, q: QueueName, hb: HostByte)
      requires Valid() && QueueHere(q) != [] && QueueHere(q)[0] == t < |tbl|
      modifies this, tbl, bits.words
      ensures Valid() && View() == SweepOne(old(View()), q, hb)
    {
      hide Unlink, PutRef;
      ghost var was := View();
      RemoveQ(t);
      ioRunning := Dec32(ioRunning);
      assert View() == TakeOff(was, t);
      hide TakeOff;
      CmdGet(t);
      Callback(t, q, hb);
      CmdPut(t);
    }

    method EachQueueRemove(hb: HostByte)
      requires Valid() && Ready(View())
      modifies this, tbl, bits.words
      ensures Valid() && Ready(View()) && View() == SweepAll(old(View()), hb)
    {
      hide Ready, SweepQueue;
      RemoveEach(REQQ, hb);
      RemoveEach(COMQ, hb);
      RemoveEach(RSPQ, hb);
    }

    /** The handler found its command on a queue: off it, its base reference dropped, completed. */
    method AbortQueued(t: nat)
      requires Valid() && t < |tbl| && tbl[t].scsiCmd.Some?
      modifies this, tbl, bits.words
      ensures Valid()
      ensures View() == Finish(PutRef(TakeOff(old(View()), t), t), IdOf(old(View()), t), Outcome(DID_ABORT, 0))
    {
      hide Unlink, PutRef, Finish;
      ghost var was := View();
      var sc := tbl[t].scsiCmd.value;
      RemoveQ(t);
      ioRunning := Dec32(ioRunning);
      assert View() == TakeOff(was, t);
      hide TakeOff;
      CmdPut(t);
      ScsiDone(sc, Outcome(DID_ABORT, 0));
    }

    /** The abort handler. `slot`: an event slot was free; `waited`: the calls of the event's callback until the wait
        is over; `late`: those between the two readings of the verdict. The first reading decides what happens to the
        command, the second what is returned. */
    method EhAbort(t: nat, slot: bool, waited: seq<Told>, late: seq<Told>) returns (success: bool)
      requires Valid() && Ready(View()) && t < |tbl| && tbl[t].refcnt > 0
      modifies this, tbl, bits.words
      ensures Valid() && Ready(View())
      ensures View() == AbortCall(old(View()), t, slot, Settled(ABORT_EVENT, waited))
      ensures success <==> !slot || Settled(ABORT_EVENT, waited + late)
      ensures slot && Settled(ABORT_EVENT, waited) ==> !View().Listed(t)
      ensures slot && Settled(ABORT_EVENT, waited) && old(View()).Listed(t) ==>
        done == old(done) + [Completion(IdOf(old(View()), t), Outcome(DID_ABORT, 0))]
      ensures !slot || !Settled(ABORT_EVENT, waited) ==> View() == old(View())
    {
      ghost var was := View();
      AbortCallIs(was, t, slot, Settled(ABORT_EVENT, waited));
      hide Ready, TakeOff, PutRef, Finish, Settled;
      CmdGet(t);
      if !slot {
        CmdPut(t);
        return true;
      }
      var settled, result := Readings(ABORT_EVENT, waited, late);
      if settled {
        if Linked(t) {
          LiveRequest(was, t);
          AbortQueued(t);
        }
      }
      CmdPut(t);
      success := result;
    }
  }

  /** A counted batch of responses: the state it leaves, and whether it went through. */
  function AnswerCounted(h: Host, rsps: seq<Rsp>, count: int): (Host, bool)
    requires |rsps| == MAX_BATCH
  {
    if count == 0 || count > MAX_BATCH then (h, false)
    else if count < 0 then (h, true)
    else (AnswerAll(h, rsps[..count]).0, AnswerAll(h, rsps[..count]).1 == count)
  }

  /** The first `n` responses and no more are good: `v` is `h` with exactly these completed, in order, and released. */
  ghost predicate AnsweredTo(h: Host, v: Host, rs: seq<Rsp>, n: nat) {
    && n <= |rs| && (forall k :: 0 <= k < n ==> Good(h, rs, k)) && (n < |rs| ==> !Good(h, rs, n))
    && v.done == h.done + Completions(h, rs[..n]) && v.ioRunning == h.ioRunning - n && |v.slots| == |h.slots|
    && (forall k :: 0 <= k < n ==> rs[k].tag < |v.slots| && v.slots[rs[k].tag] == Calls.Answered(h.slots[rs[k].tag]))
    && (forall k :: 0 <= k < n ==> !v.Listed(rs[k].tag))
  }

  /** A count of 1 to 4 goes through if and only if the host awaits each of the first `count` responses and their tags
      are distinct; either way exactly the good ones at the front are completed. A count of 0 or above 4 is refused, a
      negative one succeeds, and neither touches the host. */
  lemma AnswerCountedIs(h: Host, rsps: seq<Rsp>, count: int) returns (n: nat)
    requires Ready(h) && |rsps| == MAX_BATCH
    ensures var (v, ok) := AnswerCounted(h, rsps, count);
      && (count <= 0 || count > 4 ==> v == h && (ok <==> count < 0))
      && (0 < count <= 4 ==>
            && (ok <==> AllAwaited(h, rsps[..count])) && (ok <==> n == count)
            && AnsweredTo(h, v, rsps[..count], n))
  {
    if 0 < count <= MAX_BATCH {
      var rs := rsps[..count];
      n := AnswerAll(h, rs).1;
      BatchStopsAtFirstBad(h, rs);
      BatchCompletes(h, rs);
      BatchSucceedsIff(h, rs);
      BatchCounts(h, rs);
      hide Ready, AnswerAll, AllAwaited, Good, Addressed;
      forall k | 0 <= k < n
        ensures var v := AnswerAll(h, rs).0;
          && rs[k].tag < |v.slots| == |h.slots|
          && v.slots[rs[k].tag] == Calls.Answered(h.slots[rs[k].tag]) && !v.Listed(rs[k].tag)
      {
        BatchReleases(h, rs, k);
      }
    } else {
      n := 0;
    }
  }

  /** Taking the next command out of `rspQ` leaves the other queues alone. */
  lemma BackStep(taken: seq<nat>, k: nat, reqQ: seq<nat>, rest: seq<nat>, waiting: seq<nat>)
    requires k < |taken| && NoDup(taken) && forall t :: t in taken ==> t !in rest && t !in waiting && t !in reqQ
    ensures Remove(reqQ, taken[k]) == reqQ
    ensures Remove(Reverse(taken[..k]) + rest, taken[k]) == Reverse(taken[..k]) + rest
    ensures Remove(waiting + taken[k..], taken[k]) == waiting + taken[k + 1..]
    ensures Reverse(taken[..k + 1]) == [taken[k]] + Reverse(taken[..k])
  {
    var t := taken[k];
    assert t !in taken[..k];
    hide NoDup, Reverse;
    assert t in taken;
    RemoveAbsent(reqQ, t);
    ReverseElems(taken[..k]);
    RemoveAbsent(Reverse(taken[..k]) + rest, t);
    BackOfLine(waiting, taken, k);
    ReverseLast(taken, k);
  }

  lemma BackOfLine(waiting: seq<nat>, taken: seq<nat>, k: nat)
    requires k < |taken| && taken[k] !in waiting
    ensures Remove(waiting + taken[k..], taken[k]) == waiting + taken[k + 1..]
  {
    RemoveConcat(waiting, taken[k..], taken[k]);
    assert taken[k..][1..] == taken[k + 1..];
  }

  lemma ReverseLast(s: seq<nat>, k: nat)
    requires k < |s|
    ensures Reverse(s[..k + 1]) == [s[k]] + Reverse(s[..k])
  {
    hide Reverse;
  }

  lemma LiveRequest(h: Host, t: nat)
    requires Ready(h) && h.Listed(t)
    ensures t < |h.slots| && h.slots[t].scsiCmd.Some? && h.slots[t].refcnt > 0
  {}

  lemma GetReady(h: Host, fault: bool)
    requires Ready(h)
    ensures Ready(GetBatch(h, fault))
  {
    hide QueuesOk;
    GetKeepsQueues(h, fault);
    HeadsInRange(h);
    forall t: nat { GetListed(h, fault, t); }
  }
}
