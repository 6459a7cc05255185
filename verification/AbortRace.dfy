/** The abort handler against everything else that can run while it waits for its event. */
module AbortRace {
  import opened Seqs
  import opened HostState
  import opened Lifecycle
  import opened CommandSafety
  import opened Sweep

  /** An error handler waits on the slot its request was given. */
  ghost predicate WaitersHome(w: World) {
    forall t, x :: 0 <= t < |w.books| && x in w.books[t].waiting ==> x in w.accepted && x in w.home && w.home[x] == t
  }

  lemma StepKeepsWaiters(w: World, s: Step)
    requires Inv(w) && WaitersHome(w) && Enabled(w, s)
    ensures WaitersHome(Apply(w, s))
  {
    hide GensOk, QueuesOk, SlotsOk, Apply, EditOf, WaitersHome;
    if IsEdit(s) {
      EditApplied(w, s);
      EditWaiters(w, s);
      EditKeepsWaiters(w, s, EditOf(w, s).0);
    } else {
      QueueStepKeepsWaiters(w, s);
    }
  }

  lemma EditWaiters(w: World, s: Step)
    requires w.Shaped() && Enabled(w, s) && IsEdit(s)
    ensures forall x :: x in EditOf(w, s).0.waiting ==> x in w.books[s.t].waiting || (s.EhEnter? && x == s.sc)
  {}

  lemma EditKeepsWaiters(w: World, s: Step, b: Book)
    requires w.Shaped() && LedgerOk(w) && WaitersHome(w) && Enabled(w, s) && IsEdit(s)
    requires forall x :: x in b.waiting ==> x in w.books[s.t].waiting || (s.EhEnter? && x == s.sc)
    ensures forall op, finished :: WaitersHome(Edit(w, s.t, b, op, finished))
  {
    assert OwedOk(w, s.t);
  }

  lemma QueueStepKeepsWaiters(w: World, s: Step)
    requires w.Shaped() && WaitersHome(w) && Enabled(w, s) && !IsEdit(s)
    ensures WaitersHome(Apply(w, s))
  {
    hide EditOf, FirstFree, TakeOff, GetBatch, StartOne, Enqueue, SetStat, Ids, IdOf, Edit, QueueOf;
    if s.AbortDecide? && !w.h.Listed(s.t) { LateWaiters(w, s.t, s.sc); }
  }

  lemma LateWaiters(w: World, t: nat, sc: nat)
    requires w.Shaped() && WaitersHome(w) && t < |w.books|
    ensures var b := w.books[t].(waiting := w.books[t].waiting - multiset{sc}, leaving := w.books[t].leaving + 1);
      WaitersHome(Edit(w, t, b, KEEP, []))
  {}

  lemma {:induction false} RunKeepsWaiters(w: World, steps: seq<Step>, last: World)
    requires Inv(w) && WaitersHome(w) && Run(w, steps, last)
    ensures WaitersHome(last)
    decreases |steps|
  {
    hide Inv, Apply, Enabled, WaitersHome;
    if steps != [] {
      StepKeeps(w, steps[0]);
      StepKeepsWaiters(w, steps[0]);
      RunKeepsWaiters(Apply(w, steps[0]), steps[1..], last);
    }
  }

  /** The handler has decided: from now on the request is on no queue. */
  lemma DecidedIsPassed(w: World, t: nat, sc: nat)
    requires Inv(w) && WaitersHome(w) && Enabled(w, AbortDecide(t, sc))
    ensures sc in w.accepted && Passed(Apply(w, AbortDecide(t, sc)).h, sc, 3)
  {
    hide GensOk, Remove;
    var v := Apply(w, AbortDecide(t, sc));
    if w.h.Listed(t) { UnlinkIs(w.h, t); }
    forall u: nat | v.h.Listed(u) && u < |v.h.slots| ensures v.h.slots[u].scsiCmd != Some(sc) {
      assert w.h.Listed(u) && u != t;
      assert SlotOk(w, u) && OwedOk(w, u);
    }
  }

  lemma {:induction false} PassedForever(w: World, steps: seq<Step>, last: World, x: nat)
    requires Inv(w) && Run(w, steps, last) && x in w.accepted && Passed(w.h, x, 3)
    ensures Inv(last) && x in last.accepted && Passed(last.h, x, 3)
    decreases |steps|
  {
    hide Inv, Apply, Enabled, Passed;
    if steps != [] {
      StepKeeps(w, steps[0]);
      PassedStays(w, steps[0], x, 3);
      PassedForever(Apply(w, steps[0]), steps[1..], last, x);
    }
  }

  /** Once the abort is confirmed, and whatever runs afterwards, the request is on no queue, and it is
      completed or one path is about to complete it, never both and never twice. */
  lemma ConfirmedAbort(w0: World, before: seq<Step>, w: World, t: nat, sc: nat, after: seq<Step>, last: World)
    requires Reachable(w0, before, w) && w.Shaped() && Enabled(w, AbortDecide(t, sc))
    requires Run(Apply(w, AbortDecide(t, sc)), after, last)
    ensures last.Shaped() && NoDup(Completed(last.h)) && !IsQueued(last, sc)
    ensures sc in Completed(last.h) <==> !IsDoomed(last, sc)
  {
    hide Run, Apply;
    ReachableInv(w0, before, w);
    RunKeepsWaiters(w0, before, w) by { InitInv(w0); }
    DecidedIsPassed(w, t, sc);
    StepKeeps(w, AbortDecide(t, sc));
    PassedStays(w, AbortDecide(t, sc), sc, 0);
    PassedForever(Apply(w, AbortDecide(t, sc)), after, last, sc);
    OffAllQueues(last, sc);
    if IsDoomed(last, sc) { DoomedIsOpen(last, sc); }
  }

  lemma DoomedIsOpen(w: World, x: nat)
    requires Inv(w) && IsDoomed(w, x)
    ensures x !in Completed(w.h)
  {
    var t :| 0 <= t < |w.books| && Owes(w.Phase(t)) && !w.h.Listed(t) && w.h.slots[t].scsiCmd == Some(x);
    assert OwedOk(w, t);
  }

  // ----- Who completes it -----

  ghost predicate AbortHolds(w: World, t: nat, sc: nat) {
    t < |w.books| && (w.books[t].phase == AbortTaken(sc) || w.books[t].phase == AbortPut(sc))
  }

  const ABORTED: Outcome := Outcome(DID_ABORT, 0)

  lemma AbortHoldsOn(w: World, s: Step, t: nat, sc: nat)
    requires Inv(w) && Enabled(w, s) && AbortHolds(w, t, sc)
    ensures AbortHolds(Apply(w, s), t, sc) || Completion(sc, ABORTED) in Apply(w, s).h.done
  {
    hide GensOk, QueuesOk, LedgerOk, SlotsOk, EditOf, Apply;
    if IsEdit(s) {
      EditApplied(w, s);
      if s.t == t { EditKeepsAbort(w, s, sc); }
    } else {
      QueueStepKeepsAbort(w, s, t, sc);
    }
  }

  lemma EditKeepsAbort(w: World, s: Step, sc: nat)
    requires w.Shaped() && Enabled(w, s) && IsEdit(s) && AbortHolds(w, s.t, sc)
    ensures var (b, op, finished) := EditOf(w, s);
      b.phase == AbortTaken(sc) || b.phase == AbortPut(sc) || finished == [Completion(sc, ABORTED)]
  {}

  lemma QueueStepKeepsAbort(w: World, s: Step, t: nat, sc: nat)
    requires w.Shaped() && SlotsOk(w) && Enabled(w, s) && !IsEdit(s) && AbortHolds(w, t, sc)
    ensures AbortHolds(Apply(w, s), t, sc)
  {
    hide EditOf, FirstFree, TakeOff, GetBatch, StartOne, Enqueue, SetStat, Ids, IdOf;
    assert SlotOk(w, t);
    if s.AllocStep? { assert SlotOk(w, Alloc(w.h).1.value); }
  }

  /** A request the handler found on a queue is completed by nobody else: with DID_ABORT, when the handler is done. */
  lemma {:induction false} HandlerCompletes(w: World, steps: seq<Step>, last: World, t: nat, sc: nat)
    requires Inv(w) && Run(w, steps, last) && (AbortHolds(w, t, sc) || Completion(sc, ABORTED) in w.h.done)
    ensures AbortHolds(last, t, sc) || Completion(sc, ABORTED) in last.h.done
    decreases |steps|
  {
    hide Inv, Apply, Enabled, AbortHolds;
    if steps != [] {
      StepKeeps(w, steps[0]);
      if AbortHolds(w, t, sc) { AbortHoldsOn(w, steps[0], t, sc); }
      DoneGrows(w, steps[0]);
      HandlerCompletes(Apply(w, steps[0]), steps[1..], last, t, sc);
    }
  }

  /** The driver's count of the slot is made of error handlers' references only: `waiting` and `leaving` are the
      handlers between their get and their put. */
  ghost predicate OnlyHandlersHold(w: World, t: nat)
    requires w.Shaped() && t < |w.books|
  {
    w.h.slots[t].refcnt == |w.books[t].waiting| + w.books[t].leaving
  }

  /** A request the handler did not find leaves the host as it was. It is completed if and only if its slot owes
      nothing, and so for certain when nobody but error handlers holds the slot. */
  lemma LateAbort(w0: World, before: seq<Step>, w: World, t: nat, sc: nat)
    requires Reachable(w0, before, w) && w.Shaped() && Enabled(w, AbortDecide(t, sc)) && !w.h.Listed(t)
    ensures Apply(w, AbortDecide(t, sc)).h == w.h
    ensures sc in Completed(w.h) <==> !Owes(w.Phase(t))
    ensures OnlyHandlersHold(w, t) ==> sc in Completed(w.h)
  {
    ReachableInv(w0, before, w);
    RunKeepsWaiters(w0, before, w) by { InitInv(w0); }
    assert SlotOk(w, t) && AccountedFor(w, sc) && OwedOk(w, t);
  }

  // ----- A handler that gives up -----

  datatype Place = Entering | Waiting | Leaving | Gone

  /** One handler among all the others. `count`: what its own steps have added to the slot's count so far; `clean`: they
      have changed nothing else of the host but that slot's bit; `gen`: the allocation it entered for. */
  datatype Waiter = Waiter(w: World, at: Place, count: int, clean: bool, gen: nat)

  datatype Turn = Mine | Others(s: Step)

  function MyStep(at: Place, t: nat, sc: nat): Step
    requires at != Gone
  {
    match at case Entering => EhEnter(t, sc) case Waiting => EhGiveUp(t, sc) case Leaving => Leave(t)
  }

  /** The others may do anything but spend this handler's own reference. */
  ghost predicate TurnAllowed(k: Waiter, m: Turn, t: nat, sc: nat) {
    k.w.Shaped() &&
    match m
    case Mine => k.at != Gone && Enabled(k.w, MyStep(k.at, t, sc))
    case Others(s) =>
      && Enabled(k.w, s)
      && (k.at == Waiting && (s.AbortDecide? || s.EhGiveUp?) && s.t == t && s.sc == sc ==> k.w.books[t].waiting[sc] > 1)
      && (k.at == Leaving && s.Leave? && s.t == t ==> k.w.books[t].leaving > 1)
  }

  ghost function Turned(k: Waiter, m: Turn, t: nat, sc: nat): Waiter
    requires TurnAllowed(k, m, t, sc) && t < |k.w.books|
  {
    match m
    case Others(s) => k.(w := Apply(k.w, s))
    case Mine =>
      var v := Apply(k.w, MyStep(k.at, t, sc));
      var at := match k.at case Entering => Waiting case Waiting => Leaving case _ => Gone;
      Waiter(v, at, k.count + CountAt(v.h, t) - CountAt(k.w.h, t), k.clean && OnlyCount(k.w.h, v.h, t),
             if k.at.Entering? then k.w.books[t].gen else k.gen)
  }

  function CountAt(h: Host, t: nat): int { if t < |h.slots| then h.slots[t].refcnt else 0 }

  /** The same host but for the count and the bit of one slot. */
  ghost predicate OnlyCount(h: Host, v: Host, t: nat) {
    && t < |h.slots| == |v.slots|
    && v == h.(slots := h.slots[t := h.slots[t].(refcnt := v.slots[t].refcnt)], bits := v.bits)
    && v.bits - {t} == h.bits - {t}
  }

  ghost predicate WaitRun(k: Waiter, turns: seq<Turn>, last: Waiter, t: nat, sc: nat)
    decreases |turns|
  {
    if turns == [] then k == last
    else
      t < |k.w.books| && TurnAllowed(k, turns[0], t, sc)
      && WaitRun(Turned(k, turns[0], t, sc), turns[1..], last, t, sc)
  }

  /** Its reference keeps the slot at the allocation it entered for. */
  ghost predicate WaiterOk(k: Waiter, t: nat, sc: nat) {
    && Inv(k.w) && t < |k.w.books| && k.clean
    && k.count == (if k.at.Waiting? || k.at.Leaving? then 1 else 0)
    && (k.at.Waiting? ==> sc in k.w.books[t].waiting)
    && (k.at.Leaving? ==> k.w.books[t].leaving > 0)
    && (k.at.Waiting? || k.at.Leaving? ==> k.w.books[t].gen == k.gen > 0)
  }

  lemma EditCounts(w: World, t: nat, b: Book, op: RefOp)
    requires w.Shaped() && t < |w.books|
    ensures var v := Edit(w, t, b, op, []);
      && OnlyCount(w.h, v.h, t) && |v.books| == |w.books| && v.books[t] == b
      && v.h.slots[t].refcnt == w.h.slots[t].refcnt + Delta(op)
  {
    assert w.h.done + [] == w.h.done;
  }

  function MyOp(at: Place): RefOp { match at case Entering => GET case Waiting => KEEP case _ => PUT }

  lemma MyEdit(w: World, at: Place, t: nat, sc: nat)
    requires w.Shaped() && at != Gone && Enabled(w, MyStep(at, t, sc))
    ensures t < |w.books|
    ensures var (b, op, finished) := EditOf(w, MyStep(at, t, sc));
      && op == MyOp(at) && finished == [] && b.gen == w.books[t].gen
      && (at.Entering? ==> sc in b.waiting) && (at.Waiting? ==> b.leaving > 0)
  {}

  lemma MyEffect(w: World, at: Place, t: nat, sc: nat)
    requires Inv(w) && at != Gone && t < |w.books| && Enabled(w, MyStep(at, t, sc))
    ensures var v := Apply(w, MyStep(at, t, sc));
      && OnlyCount(w.h, v.h, t) && |v.books| == |w.books| && t < |v.books| && t < |v.h.slots| == |w.h.slots|
      && v.h.slots[t].refcnt == w.h.slots[t].refcnt + Delta(MyOp(at)) && v.books[t].gen == w.books[t].gen > 0
      && (at.Entering? ==> sc in v.books[t].waiting) && (at.Waiting? ==> v.books[t].leaving > 0)
  {
    hide SlotsOk, QueuesOk, GensOk, LedgerOk, Apply, EditOf, Edit, OnlyCount;
    MyEdit(w, at, t, sc);
    EditApplied(w, MyStep(at, t, sc));
    var (b, op, finished) := EditOf(w, MyStep(at, t, sc));
    EditCounts(w, t, b, op);
    SlotsThere(w.h, Edit(w, t, b, op, []).h, t);
    EnteredOnce(w, at, t, sc);
  }

  lemma EnteredOnce(w: World, at: Place, t: nat, sc: nat)
    requires Inv(w) && at != Gone && t < |w.books| && Enabled(w, MyStep(at, t, sc))
    ensures w.books[t].gen > 0
  {
    hide QueuesOk, GensOk, LedgerOk;
    assert SlotOk(w, t);
  }

  lemma OthersKeepWaiting(w: World, s: Step, t: nat, sc: nat)
    requires Inv(w) && Enabled(w, s) && t < |w.books| && sc in w.books[t].waiting
    requires (s.AbortDecide? || s.EhGiveUp?) && s.t == t && s.sc == sc ==> w.books[t].waiting[sc] > 1
    ensures t < |Apply(w, s).books| && sc in Apply(w, s).books[t].waiting
  {
    hide GensOk, QueuesOk, LedgerOk, SlotsOk, EditOf, Apply;
    if IsEdit(s) {
      EditApplied(w, s);
      if s.t == t { EditKeepsWaiting(w, s, sc); }
    } else {
      QueueStepKeepsWaiting(w, s, t, sc);
    }
  }

  lemma EditKeepsWaiting(w: World, s: Step, sc: nat)
    requires w.Shaped() && Enabled(w, s) && IsEdit(s) && sc in w.books[s.t].waiting
    requires s.EhGiveUp? && s.sc == sc ==> w.books[s.t].waiting[sc] > 1
    ensures sc in EditOf(w, s).0.waiting
  {}

  lemma QueueStepKeepsWaiting(w: World, s: Step, t: nat, sc: nat)
    requires w.Shaped() && SlotsOk(w) && Enabled(w, s) && !IsEdit(s) && t < |w.books| && sc in w.books[t].waiting
    requires s.AbortDecide? && s.t == t && s.sc == sc ==> w.books[t].waiting[sc] > 1
    ensures t < |Apply(w, s).books| && sc in Apply(w, s).books[t].waiting
  {
    hide EditOf, FirstFree, TakeOff, GetBatch, StartOne, Enqueue, SetStat, Ids, IdOf;
    assert SlotOk(w, t);
    if s.AllocStep? { assert SlotOk(w, Alloc(w.h).1.value); }
  }

  /** A slot with a reference out is not allocated again. */
  lemma HeldStays(w: World, s: Step, t: nat)
    requires Inv(w) && Enabled(w, s) && t < |w.books| && |w.books[t].waiting| + w.books[t].leaving > 0
    ensures t < |Apply(w, s).books| && Apply(w, s).books[t].gen == w.books[t].gen
  {
    hide GensOk, QueuesOk, LedgerOk, SlotsOk, EditOf, Apply;
    if IsEdit(s) {
      EditApplied(w, s);
      if s.t == t { EditSameGen(w, s); }
    } else {
      QueueStepKeepsGen(w, s, t);
    }
  }

  lemma QueueStepKeepsGen(w: World, s: Step, t: nat)
    requires w.Shaped() && SlotsOk(w) && Enabled(w, s) && !IsEdit(s)
    requires t < |w.books| && |w.books[t].waiting| + w.books[t].leaving > 0
    ensures t < |Apply(w, s).books| && Apply(w, s).books[t].gen == w.books[t].gen
  {
    hide EditOf, FirstFree, TakeOff, GetBatch, StartOne, Enqueue, SetStat, Ids, IdOf;
    assert SlotOk(w, t);
  }

  /** What the others leave of the handler's place: the slot is not given away while its reference is out. */
  lemma OthersKeepPlace(k: Waiter, s: Step, t: nat, sc: nat)
    requires WaiterOk(k, t, sc) && TurnAllowed(k, Others(s), t, sc)
    ensures WaiterOk(Turned(k, Others(s), t, sc), t, sc)
  {
    hide SlotsOk, QueuesOk, GensOk, LedgerOk, Apply, Enabled;
    StepKeeps(k.w, s);
    ShapeStays(k.w, s);
    if k.at.Leaving? { OthersKeepLeaving(k.w, s, t); }
    if k.at.Waiting? { OthersKeepWaiting(k.w, s, t, sc); }
    if k.at.Waiting? || k.at.Leaving? { HeldStays(k.w, s, t); }
  }

  lemma MineKeepsPlace(k: Waiter, t: nat, sc: nat)
    requires WaiterOk(k, t, sc) && TurnAllowed(k, Mine, t, sc)
    ensures WaiterOk(Turned(k, Mine, t, sc), t, sc)
  {
    hide SlotsOk, QueuesOk, GensOk, LedgerOk, Apply, Enabled, OnlyCount;
    var s := MyStep(k.at, t, sc);
    StepKeeps(k.w, s);
    MyEffect(k.w, k.at, t, sc);
  }

  lemma SlotsThere(h: Host, v: Host, t: nat)
    requires OnlyCount(h, v, t)
    ensures t < |h.slots| == |v.slots|
  {}

  lemma {:induction false} WaitKeeps(k: Waiter, turns: seq<Turn>, last: Waiter, t: nat, sc: nat)
    requires WaiterOk(k, t, sc) && WaitRun(k, turns, last, t, sc)
    ensures WaiterOk(last, t, sc)
    decreases |turns|
  {
    hide WaiterOk, TurnAllowed, Turned;
    if turns != [] {
      if turns[0].Mine? { MineKeepsPlace(k, t, sc); } else { OthersKeepPlace(k, turns[0].s, t, sc); }
      WaitKeeps(Turned(k, turns[0], t, sc), turns[1..], last, t, sc);
    }
  }

  /** The handler is never stuck on its way out: after it has entered, its own steps alone take it to its end. */
  lemma {:induction false} HandlerCanLeave(k: Waiter, t: nat, sc: nat) returns (turns: seq<Turn>, last: Waiter)
    requires WaiterOk(k, t, sc) && !k.at.Entering?
    ensures WaitRun(k, turns, last, t, sc) && last.at.Gone? && forall i :: 0 <= i < |turns| ==> turns[i].Mine?
    decreases if k.at.Waiting? then 2 else if k.at.Leaving? then 1 else 0
  {
    if k.at.Gone? {
      turns, last := [], k;
    } else {
      MayTurn(k, t, sc);
      MineKeepsPlace(k, t, sc);
      hide WaiterOk, TurnAllowed, WaitRun;
      NextPlace(k, t, sc);
      var rest;
      rest, last := HandlerCanLeave(Turned(k, Mine, t, sc), t, sc);
      WaitCons(k, Mine, rest, last, t, sc);
      turns := [Mine] + rest;
    }
  }

  lemma MayTurn(k: Waiter, t: nat, sc: nat)
    requires WaiterOk(k, t, sc) && (k.at.Waiting? || k.at.Leaving?)
    ensures t < |k.w.books| && TurnAllowed(k, Mine, t, sc)
  {
    hide SlotsOk, QueuesOk, GensOk, LedgerOk;
  }

  lemma NextPlace(k: Waiter, t: nat, sc: nat)
    requires TurnAllowed(k, Mine, t, sc) && t < |k.w.books|
    ensures Turned(k, Mine, t, sc).at == if k.at.Entering? then Waiting else if k.at.Waiting? then Leaving else Gone
  {
    hide Apply, OnlyCount;
  }

  lemma WaitCons(k: Waiter, m: Turn, rest: seq<Turn>, last: Waiter, t: nat, sc: nat)
    requires t < |k.w.books| && TurnAllowed(k, m, t, sc) && WaitRun(Turned(k, m, t, sc), rest, last, t, sc)
    ensures WaitRun(k, [m] + rest, last, t, sc)
  {
    hide TurnAllowed, Turned;
    assert ([m] + rest)[1..] == rest;
  }

  /** A handler that gives up, over every run with anything of anybody in between: its own steps have changed no queue,
      no completion and no other slot, and once it is gone the slot's count by nothing in sum. While its reference is
      out the slot keeps its bit and the allocation that the handler entered for, so the put it ends with meets the
      count it raised. */
  lemma FailedAbort(w0: World, before: seq<Step>, w: World, turns: seq<Turn>, last: Waiter, t: nat, sc: nat)
    requires Reachable(w0, before, w) && t < |w.books|
    requires WaitRun(Waiter(w, Entering, 0, true, 0), turns, last, t, sc)
    ensures last.clean && (last.at.Gone? ==> last.count == 0) && last.w.Shaped() && t < |last.w.books|
    ensures last.at.Waiting? || last.at.Leaving? ==>
      last.count == 1 && t in last.w.h.bits && last.w.h.slots[t].refcnt > 0 && last.w.books[t].gen == last.gen
  {
    ReachableInv(w0, before, w);
    hide SlotsOk, QueuesOk, GensOk, LedgerOk;
    WaitKeeps(Waiter(w, Entering, 0, true, 0), turns, last, t, sc);
    if last.at.Waiting? || last.at.Leaving? { HeldHasBit(last, t, sc); }
  }

  lemma HeldHasBit(k: Waiter, t: nat, sc: nat)
    requires WaiterOk(k, t, sc) && (k.at.Waiting? || k.at.Leaving?)
    ensures t in k.w.h.bits && k.w.h.slots[t].refcnt > 0
  {
    assert SlotOk(k.w, t);
  }
}
