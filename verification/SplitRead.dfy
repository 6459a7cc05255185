/** The batch read region by region: the move under the lock, the marking and the copy outside it, and, when the copy
    faults, the rollback under the lock again. Alone it is the one step of the transition system; with others in
    between, the rollback presumes that its commands are still queued. */
module SplitRead {
  import opened Seqs
  import opened HostState
  import opened Lifecycle
  import opened CommandSafety
  import opened Sweep
  import opened Calls
  import opened Refinement
  import opened AbortVerdict

  /** The first region: the batch moves to `rspQ`. */
  function MoveBatch(h: Host): Host { h.(cmpQ := h.cmpQ[BatchSize(h)..], rspQ := h.rspQ + Batch(h)) }

  /** Outside the lock: each command of the batch is marked as read. */
  function MarkBatch(h: Host, b: seq<nat>): Host { h.(slots := SetStats(h.slots, b, READ_COMP)) }

  /** One turn of the rollback loop: marked as requested again, out of whichever queue, to the head of `cmpQ`. */
  function RollOne(h: Host, c: nat): (v: Host)
    requires c < h.Nr()
    ensures |v.slots| == |h.slots|
  {
    var u := Unlink(SetStat(h, c, REQUEST), c);
    u.(cmpQ := [c] + u.cmpQ)
  }

  function RollBack(h: Host, b: seq<nat>): (v: Host)
    requires InRange(b, h.Nr())
    ensures |v.slots| == |h.slots|
    decreases |b|
  {
    if b == [] then h else RollBack(RollOne(h, b[0]), b[1..])
  }

  // ----- Alone -----

  lemma RollOneIs(h: Host, b: seq<nat>, waiting: seq<nat>)
    requires b != [] && InRange(b, h.Nr()) && NoDup(b) && h.rspQ == waiting + b
    requires forall t :: t in b ==> t !in h.cmpQ && t !in waiting && t !in h.reqQ
    ensures RollOne(h, b[0]) == h.(slots := h.slots[b[0] := h.slots[b[0]].(stat := REQUEST)],
                                   cmpQ := [b[0]] + h.cmpQ, rspQ := waiting + b[1..])
    ensures NoDup(b[1..]) && b[0] !in b[1..]
  {
    var c := b[0];
    assert b == [c] + b[1..];
    NoDupCons(c, b[1..]);
    hide NoDup;
    assert c in b;
    RemoveAbsent(h.reqQ, c);
    RemoveAbsent(h.cmpQ, c);
    RemoveConcat(waiting, b, c);
  }

  /** With its commands still at the end of `rspQ`, the rollback leaves them reversed at the head of `cmpQ`. */
  lemma {:induction false} RollBackIs(h: Host, b: seq<nat>, waiting: seq<nat>)
    requires InRange(b, h.Nr()) && NoDup(b) && h.rspQ == waiting + b
    requires forall t :: t in b ==> t !in h.cmpQ && t !in waiting && t !in h.reqQ
    ensures RollBack(h, b)
         == h.(slots := SetStats(h.slots, b, REQUEST), cmpQ := Reverse(b) + h.cmpQ, rspQ := waiting)
    decreases |b|
  {
    hide SetStats, RollOne, NoDup;
    StatsStep(h.slots, b, REQUEST);
    if b == [] {
      assert waiting + b == waiting && Reverse(b) + h.cmpQ == h.cmpQ;
    } else {
      RollOneIs(h, b, waiting);
      assert b == [b[0]] + b[1..];
      RollBackIs(RollOne(h, b[0]), b[1..], waiting);
      assert Reverse(b) + h.cmpQ == Reverse(b[1..]) + ([b[0]] + h.cmpQ);
    }
  }

  /** Run alone, the regions make up the one step of the transition system: marked when the copy succeeds, undone when
      it faults. */
  lemma ReadIsStep(w: World)
    requires Inv(w) && w.h.cmpQ != []
    ensures Enabled(w, GetStep(false)) && Enabled(w, GetStep(true)) && InRange(Batch(w.h), w.h.Nr())
    ensures var b := Batch(w.h);
      && Apply(w, GetStep(false)).h == MarkBatch(MoveBatch(w.h), b)
      && Apply(w, GetStep(true)).h == RollBack(MarkBatch(MoveBatch(w.h), b), b)
  {
    hide QueuesOk, SlotsOk, GensOk, LedgerOk, SetStats, NoDup, RollBack, Batch, Ids;
    var h, b := w.h, Batch(w.h);
    ReachableReady(w);
    BatchParts(h);
    RollBackIs(MarkBatch(MoveBatch(h), b), b, h.rspQ);
    StatsTwice(h.slots, b, READ_COMP, REQUEST);
  }

  // ----- With others in between -----

  /** The queues share no slot, and `io_running` counts them. */
  ghost predicate Conserved(h: Host) {
    NoDup(h.reqQ + h.cmpQ + h.rspQ) && h.ioRunning == |h.reqQ| + |h.cmpQ| + |h.rspQ|
  }

  ghost function Missing(h: Host, b: seq<nat>): nat {
    if b == [] then 0 else Missing(h, b[1..]) + if h.Listed(b[0]) then 0 else 1
  }

  lemma {:induction false} MissingNone(h: Host, b: seq<nat>)
    ensures Missing(h, b) == 0 <==> forall t :: t in b ==> h.Listed(t)
  {
    if b != [] {
      MissingNone(h, b[1..]);
      assert b == [b[0]] + b[1..];
    }
  }

  lemma ThreeParts(h: Host)
    ensures NoDup(h.reqQ + h.cmpQ + h.rspQ) <==>
      && NoDup(h.reqQ) && NoDup(h.cmpQ) && NoDup(h.rspQ)
      && (forall t :: t in h.reqQ ==> t !in h.cmpQ && t !in h.rspQ) && (forall t :: t in h.cmpQ ==> t !in h.rspQ)
  {
    NoDupParts(h.reqQ, h.cmpQ);
    NoDupParts(h.reqQ + h.cmpQ, h.rspQ);
  }

  /** Rolling back a slot that somebody took off its queue puts one slot too many on the queues. */
  lemma RollOneCounts(h: Host, c: nat)
    requires NoDup(h.reqQ + h.cmpQ + h.rspQ) && c < h.Nr()
    ensures var v := RollOne(h, c);
      && NoDup(v.reqQ + v.cmpQ + v.rspQ) && v.ioRunning == h.ioRunning
      && |v.reqQ| + |v.cmpQ| + |v.rspQ| == |h.reqQ| + |h.cmpQ| + |h.rspQ| + (if h.Listed(c) then 0 else 1)
      && forall t: nat :: v.Listed(t) <==> t == c || h.Listed(t)
  {
    var v := RollOne(h, c);
    ThreeParts(h);
    ThreeParts(v);
    RemoveIs(h.reqQ, c);
    RemoveIs(h.cmpQ, c);
    RemoveIs(h.rspQ, c);
    NoDupCons(c, Remove(h.cmpQ, c));
    hide NoDup, Remove;
  }

  lemma {:induction false} RollBackCounts(h: Host, b: seq<nat>)
    requires NoDup(h.reqQ + h.cmpQ + h.rspQ) && InRange(b, h.Nr()) && NoDup(b)
    ensures var v := RollBack(h, b);
      && NoDup(v.reqQ + v.cmpQ + v.rspQ) && v.ioRunning == h.ioRunning
      && |v.reqQ| + |v.cmpQ| + |v.rspQ| == |h.reqQ| + |h.cmpQ| + |h.rspQ| + Missing(h, b)
    decreases |b|
  {
    if b != [] {
      var v, rest := RollOne(h, b[0]), b[1..];
      assert b == [b[0]] + rest;
      NoDupCons(b[0], rest);
      RollOneCounts(h, b[0]);
      hide NoDup, RollOne;
      RollBackCounts(v, rest);
      SameMissing(h, v, rest, b[0]);
    }
  }

  lemma {:induction false} SameMissing(h: Host, v: Host, b: seq<nat>, c: nat)
    requires c !in b && forall t: nat :: v.Listed(t) <==> t == c || h.Listed(t)
    ensures Missing(v, b) == Missing(h, b)
  {
    if b != [] { SameMissing(h, v, b[1..], c); }
  }

  /** Whatever ran since the move: the rollback keeps the host's conservation law if and only if every slot of its
      batch is linked into a queue. That alone does not make the commands in them its own. */
  lemma RollBackConservesIff(h: Host, b: seq<nat>)
    requires Conserved(h) && InRange(b, h.Nr()) && NoDup(b)
    ensures Conserved(RollBack(h, b)) <==> forall t :: t in b ==> h.Listed(t)
  {
    hide RollBack, NoDup;
    RollBackCounts(h, b);
    MissingNone(h, b);
  }

  /** A command that somebody took meanwhile and completed is queued again by the rollback; read and answered, it is
      completed a second time. */
  lemma RolledBackTwice(w: World, t: nat, sc: nat, r: Rsp)
    requires Inv(w) && t < |w.books| && w.books[t].gen > 0 && sc in Completed(w.h) && w.h.slots[t].scsiCmd == Some(sc)
    requires r.tag == t && r.cmdSn == w.h.slots[t].cmdSn
    ensures var g := GetBatch(RollOne(w.h, t), false);
      Accepts(g, r) && !NoDup(Completed(Answer(g, r)))
  {
    var u := RollOne(w.h, t);
    var g := GetBatch(u, false);
    assert Batch(u)[0] == t;
    assert t in Batch(u) && t in g.rspQ;
    var v := Answer(g, r);
    assert v.done == w.h.done + [Completion(sc, OutcomeOf(r))];
    var i :| 0 <= i < |w.h.done| && w.h.done[i].sc == sc;
    assert Completed(v)[i] == Completed(v)[|w.h.done|] == sc;
  }

  /** Command 7, read by the target, after the sweep of its queue. */
  lemma SweptOff(h: Host)
    requires h == Racing(READ_COMP, 1, ONQUEUE, [], [], [0], 0).h && Ready(h)
    ensures var v := SweepOne(h, RSPQ, DID_REQUEUE);
      && v.slots == [Slot(READ_COMP, 1, 0, Some(7))] && Completed(v) == [7] && v.bits == {}
      && v.reqQ == v.cmpQ == v.rspQ == []
  {
    SweepOneIs(h, RSPQ, DID_REQUEUE);
    var v := SweepOne(h, RSPQ, DID_REQUEUE);
    hide SweepOne, Ready;
    assert QueueOf(v, REQQ) == [] && QueueOf(v, COMQ) == [] && QueueOf(v, RSPQ) == [];
  }

  /** Such a state is reached: command 7 is read, a sweep takes and completes it, and then the copy faults. */
  lemma SweptMeanwhile() returns (steps: seq<Step>, w: World)
    ensures Reachable(START, steps, w) && w.Shaped() && w.books[0].gen > 0
    ensures 7 in Completed(w.h) && w.h.slots[0].scsiCmd == Some(7) && !w.h.Listed(0)
  {
    hide Run, Inv, SweepOne, Ready;
    var first, a := CommandRead();
    ReachableInv(START, first, a);
    ReachableReady(a);
    var rest;
    rest, w := SweepTurnIsSteps(a, RSPQ, DID_REQUEUE);
    SweptOff(a.h);
    RunJoins(START, first, a, rest, w);
    steps := first + rest;
    assert Completed(w.h)[0] == 7;
    FirstSlot(w);
  }

  lemma FirstSlot(w: World)
    requires Inv(w) && !w.h.Listed(0) && w.h.slots == [Slot(READ_COMP, 1, 0, Some(7))]
    ensures w.Shaped() && w.books[0].gen > 0
  {
    assert SlotOk(w, 0);
  }

  /** The rollback also brings a command back to a queue it had passed: a sweep already at `rspQ` would miss it. */
  lemma RolledBackUnpassed(h: Host, t: nat, x: nat)
    requires t < h.Nr() && t in h.rspQ && h.slots[t].scsiCmd == Some(x)
    ensures !Passed(RollOne(h, t), x, 2)
  {
    assert t in RollOne(h, t).cmpQ;
  }
}
