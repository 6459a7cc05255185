/** What every reachable state of a host guarantees about its commands. */
module CommandSafety {
  import opened Seqs
  import opened HostState
  import opened Lifecycle

  ghost predicate Reachable(w0: World, steps: seq<Step>, w: World) {
    Init(w0) && Run(w0, steps, w)
  }

  lemma ReachableInv(w0: World, steps: seq<Step>, w: World)
    requires Reachable(w0, steps, w)
    ensures Inv(w)
  {
    InitInv(w0);
    RunKeeps(w0, steps, w);
  }

  // ----- Exactly-once completion -----

  ghost predicate IsQueued(w: World, x: nat)
    requires w.Shaped()
  {
    exists t :: 0 <= t < |w.books| && w.h.Listed(t) && w.h.slots[t].scsiCmd == Some(x)
  }

  /** Off every queue, but whoever took it has not called `scsi_done` yet. */
  ghost predicate IsDoomed(w: World, x: nat)
    requires w.Shaped()
  {
    exists t :: 0 <= t < |w.books| && Owes(w.Phase(t)) && !w.h.Listed(t) && w.h.slots[t].scsiCmd == Some(x)
  }

  /** No request is completed twice, and at every moment an accepted request is in exactly one
      of three places: completed, on a queue, or in the hands of the one path that took it. */
  ghost predicate OnceNow(w: World, x: nat)
    requires w.Shaped()
  {
    && NoDup(w.accepted) && NoDup(Completed(w.h))
    && (x in w.accepted <==> x in Completed(w.h) || IsQueued(w, x) || IsDoomed(w, x))
    && !(x in Completed(w.h) && (IsQueued(w, x) || IsDoomed(w, x))) && !(IsQueued(w, x) && IsDoomed(w, x))
  }

  lemma InvMeansOnce(w: World, x: nat)
    requires Inv(w)
    ensures OnceNow(w, x)
  {
    if x in w.accepted {
      assert AccountedFor(w, x);
      assert SlotOk(w, w.home[x]);
    }
    forall t | 0 <= t < |w.books| && w.h.slots[t].scsiCmd == Some(x) && (w.h.Listed(t) || Owes(w.Phase(t)))
      ensures x in w.accepted && x !in Completed(w.h) && w.home[x] == t
    {
      assert SlotOk(w, t) && OwedOk(w, t);
    }
  }

  /** So it is in every reachable state. */
  lemma ExactlyOnce(w0: World, steps: seq<Step>, w: World, x: nat)
    requires Reachable(w0, steps, w)
    ensures w.Shaped() && OnceNow(w, x)
  {
    ReachableInv(w0, steps, w);
    InvMeansOnce(w, x);
  }

  // ----- Stale responses -----

  /** The target may send any response at any time; one that fails the checks changes nothing. */
  lemma AnyResponse(w: World, tag: nat, sn: nat, outcome: Outcome)
    requires w.Shaped()
    ensures Enabled(w, Respond(tag, sn, outcome))
    ensures !(w.h.Listed(tag) && tag < |w.books| && w.h.slots[tag].stat == READ_COMP && w.h.slots[tag].cmdSn == sn) ==>
      Apply(w, Respond(tag, sn, outcome)) == w
  {}

  lemma {:induction false} GensGrow(w: World, steps: seq<Step>, v: World, t: nat)
    requires Inv(w) && Run(w, steps, v) && t < |w.books|
    ensures Inv(v) && t < |v.books| && w.books[t].gen <= v.books[t].gen
    decreases |steps|
  {
    if steps != [] {
      StepKeeps(w, steps[0]);
      GenGrows(w, steps[0], t);
      GensGrow(Apply(w, steps[0]), steps[1..], v, t);
    }
  }

  lemma GenGrows(w: World, s: Step, t: nat)
    requires Inv(w) && Enabled(w, s) && t < |w.books|
    ensures t < |Apply(w, s).books| && w.books[t].gen <= Apply(w, s).books[t].gen
  {
    hide SlotsOk, QueuesOk, LedgerOk, EditOf, Apply;
    if IsEdit(s) {
      EditApplied(w, s);
      EditSameGen(w, s);
    } else {
      QueueGenGrows(w, s, t);
    }
  }

  lemma EditSameGen(w: World, s: Step)
    requires w.Shaped() && Enabled(w, s) && IsEdit(s)
    ensures EditOf(w, s).0.gen == w.books[s.t].gen
  {}

  lemma QueueGenGrows(w: World, s: Step, t: nat)
    requires w.Shaped() && GensOk(w) && Enabled(w, s) && !IsEdit(s) && t < |w.books|
    ensures t < |Apply(w, s).books| && w.books[t].gen <= Apply(w, s).books[t].gen
  {
    hide EditOf, FirstFree, Unlink, GetBatch, StartOne, Enqueue, SetStat, IdOf, Ids;
  }

  /** A message naming the allocation `a` that slot `tag` once held gets past the checks only while the
      slot is on a queue, read by the target and not answered, and holds `a` itself or an allocation a
      multiple of 2^32 later. */
  lemma StaleExactly(w: World, steps: seq<Step>, v: World, tag: nat, a: nat)
    requires Inv(w) && Run(w, steps, v) && tag < |w.books| && w.books[tag].gen == a > 0
    ensures v.Shaped() && tag < |v.books|
    ensures Addressed(v.h, tag, a % TWO32) <==>
      v.Phase(tag).Queued? && v.h.slots[tag].stat == READ_COMP && (v.books[tag].gen - a) % TWO32 == 0
  {
    hide Run, QueuesOk, GensOk, LedgerOk;
    GensGrow(w, steps, v, tag);
    assert SlotOk(v, tag);
    ModsAgree(v.books[tag].gen, a);
  }

  /** With fewer than 2^32 allocations in between, a stale message never lands. */
  lemma StaleNeverLands(w: World, steps: seq<Step>, v: World, tag: nat, a: nat)
    requires Inv(w) && Run(w, steps, v) && tag < |w.books| && w.books[tag].gen == a > 0
    requires v.allocs - a < TWO32
    ensures v.Shaped() && tag < |v.books|
    ensures Addressed(v.h, tag, a % TWO32) <==>
      v.books[tag].gen == a && v.Phase(tag).Queued? && v.h.slots[tag].stat == READ_COMP
  {
    hide Run, Addressed;
    GensGrow(w, steps, v, tag);
    StaleExactly(w, steps, v, tag, a);
    NearMultiple(v.books[tag].gen - a);
  }

  /** An accepted answer is the only one its allocation ever gets. */
  lemma OneAnswer(w: World, steps: seq<Step>, v: World, tag: nat, sn: nat, outcome: Outcome)
    requires Inv(w) && Addressed(w.h, tag, sn)
    requires Enabled(w, Respond(tag, sn, outcome)) && Run(Apply(w, Respond(tag, sn, outcome)), steps, v)
    ensures w.Shaped() && v.Shaped() && tag < |w.books| && NoDup(v.answered) && w.books[tag].gen in v.answered
    ensures forall t :: 0 <= t < |v.books| && v.books[t].gen == w.books[tag].gen ==> !v.Phase(t).Queued?
  {
    var u := Apply(w, Respond(tag, sn, outcome));
    StepKeeps(w, Respond(tag, sn, outcome));
    RunKeeps(u, steps, v);
    AnswersStay(u, steps, v, w.books[tag].gen);
  }

  lemma {:induction false} AnswersStay(w: World, steps: seq<Step>, v: World, g: nat)
    requires Run(w, steps, v) && g in w.answered
    ensures g in v.answered
    decreases |steps|
  {
    if steps != [] { AnswersStay(Apply(w, steps[0]), steps[1..], v, g); }
  }

  // ----- The pool and the queues -----

  /** Counts never go negative and a bit says the same as a positive count; allocation fails exactly
      when the pool is full, and what it hands out is referenced by nobody and on no queue. */
  lemma PoolSafe(w0: World, steps: seq<Step>, w: World)
    requires Reachable(w0, steps, w)
    ensures w.Shaped()
    ensures forall t :: 0 <= t < |w.books| ==> w.h.slots[t].refcnt >= 0 && (t in w.h.bits <==> w.h.slots[t].refcnt > 0)
    ensures forall t :: 0 <= t < |w.books| ==>
      w.h.slots[t].refcnt == Base(w.Phase(t)) + Hold(w.Phase(t)) + |w.books[t].waiting| + w.books[t].leaving
    ensures Alloc(w.h).1.None? <==> forall t :: 0 <= t < |w.books| ==> t in w.h.bits
    ensures Alloc(w.h).1.Some? ==> var i := Alloc(w.h).1.value;
      i < |w.books| && !w.h.Listed(i) && w.h.slots[i].refcnt == 0
      && w.Phase(i).Idle? && w.books[i].waiting == multiset{} && w.books[i].leaving == 0
  {
    ReachableInv(w0, steps, w);
    forall t | 0 <= t < |w.books|
      ensures w.h.slots[t].refcnt >= 0 && (t in w.h.bits <==> w.h.slots[t].refcnt > 0)
      ensures w.h.slots[t].refcnt == Base(w.Phase(t)) + Hold(w.Phase(t)) + |w.books[t].waiting| + w.books[t].leaving
    {
      assert SlotOk(w, t);
    }
    if Alloc(w.h).1.Some? { assert SlotOk(w, Alloc(w.h).1.value); }
  }

  /** The queues never share a slot, every queued slot has a request, and `io_running` counts them. */
  lemma QueuesConserved(w0: World, steps: seq<Step>, w: World)
    requires Reachable(w0, steps, w)
    ensures w.Shaped() && NoDup(w.h.reqQ + w.h.cmpQ + w.h.rspQ)
    ensures forall t: nat :: w.h.Listed(t) ==> t < |w.books| && w.h.slots[t].scsiCmd.Some?
    ensures w.h.ioRunning == |w.h.reqQ| + |w.h.cmpQ| + |w.h.rspQ|
  {
    ReachableInv(w0, steps, w);
    NoDupParts(w.h.reqQ, w.h.cmpQ);
    NoDupParts(w.h.reqQ + w.h.cmpQ, w.h.rspQ);
    forall t: nat | w.h.Listed(t) ensures t < |w.books| && w.h.slots[t].scsiCmd.Some? {
      assert SlotOk(w, t);
    }
  }

  /** With nobody submitting, finishing or holding on, the set bits are the running commands. */
  lemma QuietPool(w0: World, steps: seq<Step>, w: World)
    requires Reachable(w0, steps, w)
    requires w.Shaped() && forall t :: 0 <= t < |w.books| ==>
      (w.Phase(t).Idle? || w.Phase(t).Queued?) && w.books[t].waiting == multiset{} && w.books[t].leaving == 0
    ensures |w.h.bits| == w.h.ioRunning
  {
    ReachableInv(w0, steps, w);
    QueuesConserved(w0, steps, w);
    var all := w.h.reqQ + w.h.cmpQ + w.h.rspQ;
    ElemsSize(all);
    forall t ensures t in w.h.bits <==> t in Elems(all) {
      if t in w.h.bits || t in all { assert SlotOk(w, t); }
    }
    assert w.h.bits == Elems(all);
  }
}
