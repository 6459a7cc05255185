/** The life of commands on one host while any number of submitters, readers,
    responders, error handlers and sweeps run at once. Every step is one region
    under the host lock, or one action outside it; the ghost book says where
    each slot's references are. */
module Lifecycle {
  import opened Seqs
  import opened HostState

  /** Who holds the base reference of a slot, and what it still owes. */
  datatype Phase =
    | Idle                        // dropped, or never taken
    | Submitting                  // allocated, not yet queued
    | Queued
    | RespTaken(outcome: Outcome) // a response removed it: scsi_done is still to come
    | RespDone                    // ... and then the put
    | SweepTaken                  // a sweep removed it
    | SweepHeld                   // ... and took its own reference
    | SweepDone                   // ... and the callback has called scsi_done
    | AbortTaken(sc: nat)         // eh_abort removed it
    | AbortPut(sc: nat)           // ... and dropped the base reference; scsi_done is still to come

  /** `waiting`: the requests of error handlers that hold a reference and have not decided yet.
      `leaving`: holders with only their final put left. `gen`: which allocation of the
      host last used the slot (0 for none). */
  datatype Book = Book(phase: Phase, waiting: multiset<nat>, leaving: nat, gen: nat)

  datatype World = World(
    h: Host, books: seq<Book>, allocs: nat,
    accepted: seq<nat>,           // requests in the order they were enqueued
    home: map<nat, nat>,          // the slot each of them was given
    delivered: seq<nat>,          // requests in the order the target read them
    dropped: set<nat>,            // requests removed before the target read them
    answered: seq<nat>)           // allocations whose response was accepted, in order
  {
    ghost predicate Shaped() { 0 < |h.slots| == |books| <= MAX_NR_CMDS }

    function Phase(t: nat): Phase requires t < |books| { books[t].phase }

    function Sc(t: nat): nat requires t < |h.slots| && h.slots[t].scsiCmd.Some? { h.slots[t].scsiCmd.value }
  }

  function Base(p: Phase): nat { if p.Idle? || p.AbortPut? then 0 else 1 }

  function Hold(p: Phase): nat { if p.SweepHeld? || p.SweepDone? || p.AbortTaken? || p.AbortPut? then 1 else 0 }

  /** The slot's request has not been completed yet. */
  predicate Owes(p: Phase) {
    p.Queued? || p.RespTaken? || p.SweepTaken? || p.SweepHeld? || p.AbortTaken? || p.AbortPut?
  }

  function Completed(h: Host): (r: seq<nat>)
    ensures |r| == |h.done| && forall i :: 0 <= i < |r| ==> r[i] == h.done[i].sc
  {
    seq(|h.done|, i requires 0 <= i < |h.done| => h.done[i].sc)
  }

  datatype Step =
    | AllocStep
    | Submit(t: nat, sc: nat)
    | StartStep
    | GetStep(fault: bool)
    | Respond(tag: nat, sn: nat, outcome: Outcome)
    | RespFinish(t: nat)
    | RespPut(t: nat)
    | TakeStep(q: QueueName)
    | SweepGet(t: nat)
    | SweepFinish(t: nat, outcome: Outcome)
    | SweepDrop(t: nat)
    | EhEnter(t: nat, sc: nat)
    | AbortDecide(t: nat, sc: nat)
    | AbortDrop(t: nat)
    | AbortFinish(t: nat)
    | EhGiveUp(t: nat, sc: nat)
    | Leave(t: nat)

  ghost predicate Enabled(w: World, s: Step)
    requires w.Shaped()
  {
    match s
    case AllocStep => Alloc(w.h).1.Some?
    case Submit(t, sc) => t < |w.books| && w.Phase(t) == Submitting && sc !in w.accepted
    case StartStep => w.h.reqQ != [] && w.h.reqQ[0] < |w.h.slots|
    case GetStep(_) => w.h.cmpQ != []
    case Respond(tag, sn, _) => true
    case RespFinish(t) => t < |w.books| && w.Phase(t).RespTaken? && w.h.slots[t].scsiCmd.Some?
    case RespPut(t) => t < |w.books| && w.Phase(t) == RespDone
    case TakeStep(q) => QueueOf(w.h, q) != [] && QueueOf(w.h, q)[0] < |w.books|
    case SweepGet(t) => t < |w.books| && w.Phase(t) == SweepTaken
    case SweepFinish(t, _) => t < |w.books| && w.Phase(t) == SweepHeld
    case SweepDrop(t) => t < |w.books| && w.Phase(t) == SweepDone
    // the mid-layer calls an error handler only for a command it still waits for
    case EhEnter(t, sc) => t < |w.books| && Owes(w.Phase(t)) && w.h.slots[t].scsiCmd == Some(sc)
    case AbortDecide(t, sc) => t < |w.books| && sc in w.books[t].waiting
    case AbortDrop(t) => t < |w.books| && w.Phase(t).AbortTaken?
    case AbortFinish(t) => t < |w.books| && w.Phase(t).AbortPut?
    case EhGiveUp(t, sc) => t < |w.books| && sc in w.books[t].waiting
    case Leave(t) => t < |w.books| && w.books[t].leaving > 0
  }

  datatype RefOp = KEEP | GET | PUT

  function Refs(h: Host, t: nat, op: RefOp): Host
    requires t < |h.slots|
  {
    match op case KEEP => h case GET => GetRef(h, t) case PUT => PutRef(h, t)
  }

  function Delta(op: RefOp): int { match op case KEEP => 0 case GET => 1 case PUT => -1 }

  /** A step outside the queues: a reference taken or dropped, perhaps a call of `scsi_done`. */
  function Edit(w: World, t: nat, b: Book, op: RefOp, finished: seq<Completion>): World
    requires t < |w.books| == |w.h.slots|
  {
    var h := Refs(w.h, t, op);
    w.(h := h.(done := h.done + finished), books := w.books[t := b])
  }

  /** A step that takes the slot off its queue. Requests removed before delivery never reach the target. */
  function Take(w: World, t: nat, b: Book): World
    requires t < |w.books| == |w.h.slots|
  {
    var undelivered := if t in w.h.reqQ || t in w.h.cmpQ then {IdOf(w.h, t)} else {};
    w.(h := TakeOff(w.h, t), books := w.books[t := b], dropped := w.dropped + undelivered)
  }

  function IdOf(h: Host, t: nat): nat {
    if t < |h.slots| && h.slots[t].scsiCmd.Some? then h.slots[t].scsiCmd.value else 0
  }

  function Ids(h: Host, q: seq<nat>): (r: seq<nat>)
    ensures |r| == |q| && forall i :: 0 <= i < |q| ==> r[i] == IdOf(h, q[i])
  {
    seq(|q|, i requires 0 <= i < |q| => IdOf(h, q[i]))
  }

  function DoAlloc(w: World): World
    requires |w.books| == |w.h.slots| && Alloc(w.h).1.Some?
  {
    var (h, t) := Alloc(w.h);
    w.(h := h, allocs := w.allocs + 1, books := w.books[t.value := Book(Submitting, multiset{}, 0, w.allocs + 1)])
  }

  function DoSubmit(w: World, t: nat, sc: nat): World
    requires t < |w.books| == |w.h.slots|
  {
    w.(h := Enqueue(SetScsiCmd(w.h, t, sc), t), accepted := w.accepted + [sc], home := w.home[sc := t],
       books := w.books[t := w.books[t].(phase := Queued)])
  }

  function DoGet(w: World, fault: bool): World {
    w.(h := GetBatch(w.h, fault), delivered := w.delivered + if fault then [] else Ids(w.h, Batch(w.h)))
  }

  function DoRespond(w: World, t: nat, outcome: Outcome): World
    requires t < |w.books| == |w.h.slots|
  {
    var v := Take(w, t, w.books[t].(phase := RespTaken(outcome)));
    v.(h := SetStat(v.h, t, RESP), answered := w.answered + [w.books[t].gen])
  }

  /** Steps that move references and completions only. */
  predicate IsEdit(s: Step) {
    || s.RespFinish? || s.RespPut? || s.SweepGet? || s.SweepFinish? || s.SweepDrop? || s.EhEnter?
    || s.AbortDrop? || s.AbortFinish? || s.EhGiveUp? || s.Leave?
  }

  /** The new book of the slot, the change of its count, and the completion if there is one. */
  ghost function EditOf(w: World, s: Step): (Book, RefOp, seq<Completion>)
    requires w.Shaped() && Enabled(w, s) && IsEdit(s)
  {
    var b := w.books[s.t];
    match s
    case RespFinish(t) => (b.(phase := RespDone), KEEP, [Completion(w.Sc(t), b.phase.outcome)])
    case RespPut(t) => (b.(phase := Idle), PUT, [])
    case SweepGet(t) => (b.(phase := SweepHeld), GET, [])
    case SweepFinish(t, outcome) =>
      (b.(phase := SweepDone), KEEP, if w.h.slots[t].scsiCmd.Some? then [Completion(w.Sc(t), outcome)] else [])
    case SweepDrop(t) => (b.(phase := Idle, leaving := b.leaving + 1), PUT, [])
    case EhEnter(t, sc) => (b.(waiting := b.waiting + multiset{sc}), GET, [])
    case AbortDrop(t) => (b.(phase := AbortPut(b.phase.sc)), PUT, [])
    case AbortFinish(t) =>
      (b.(phase := Idle, leaving := b.leaving + 1), KEEP, [Completion(b.phase.sc, Outcome(DID_ABORT, 0))])
    case EhGiveUp(t, sc) => (b.(waiting := b.waiting - multiset{sc}, leaving := b.leaving + 1), KEEP, [])
    case Leave(t) => (b.(leaving := b.leaving - 1), PUT, [])
  }

  ghost function Apply(w: World, s: Step): World
    requires w.Shaped() && Enabled(w, s)
  {
    match s
    case AllocStep => DoAlloc(w)
    case Submit(t, sc) => DoSubmit(w, t, sc)
    case StartStep => w.(h := StartOne(w.h))
    case GetStep(fault) => DoGet(w, fault)
    case Respond(tag, sn, outcome) => if Addressed(w.h, tag, sn) then DoRespond(w, tag, outcome) else w
    case TakeStep(q) => var t := QueueOf(w.h, q)[0]; Take(w, t, w.books[t].(phase := SweepTaken))
    case AbortDecide(t, sc) =>
      var b := w.books[t].(waiting := w.books[t].waiting - multiset{sc});
      if w.h.Listed(t) then Take(w, t, b.(phase := AbortTaken(sc)))
      else Edit(w, t, b.(leaving := b.leaving + 1), KEEP, [])
    case _ => var (b, op, finished) := EditOf(w, s); Edit(w, s.t, b, op, finished)
  }

  /** A host as registered: nothing allocated, nothing queued. */
  ghost predicate Init(w: World) {
    && w.Shaped()
    && (forall t :: 0 <= t < |w.books| ==> w.books[t] == Book(Idle, multiset{}, 0, 0))
    && (forall t :: 0 <= t < |w.books| ==> w.h.slots[t].stat == INIT && w.h.slots[t].refcnt == 0)
    && w.h.bits == {} && w.h.reqQ == w.h.cmpQ == w.h.rspQ == [] && w.h.ioRunning == 0 && w.h.cmdSn == 0
    && w.h.done == [] && w.allocs == 0 && w.accepted == [] && w.delivered == [] && w.dropped == {} && w.answered == []
  }

  /** Any finite run. */
  ghost predicate Run(w: World, steps: seq<Step>, last: World)
    decreases |steps|
  {
    if steps == [] then w == last
    else w.Shaped() && Enabled(w, steps[0]) && Run(Apply(w, steps[0]), steps[1..], last)
  }

  lemma RunCons(w: World, s: Step, rest: seq<Step>, last: World)
    requires w.Shaped() && Enabled(w, s) && Run(Apply(w, s), rest, last)
    ensures Run(w, [s] + rest, last)
  {
    assert ([s] + rest)[1..] == rest;
  }

  lemma {:induction false} RunJoins(w: World, a: seq<Step>, m: World, b: seq<Step>, v: World)
    requires Run(w, a, m) && Run(m, b, v)
    ensures Run(w, a + b, v)
    decreases |a|
  {
    hide Apply, Enabled;
    if a == [] {
      assert a + b == b;
    } else {
      RunJoins(Apply(w, a[0]), a[1..], m, b, v);
      assert (a + b)[1..] == a[1..] + b;
    }
  }

  lemma EditApplied(w: World, s: Step)
    requires w.Shaped() && Enabled(w, s) && IsEdit(s)
    ensures var (b, op, finished) := EditOf(w, s); Apply(w, s) == Edit(w, s.t, b, op, finished)
  {}

  lemma ShapeStays(w: World, s: Step)
    requires w.Shaped() && Enabled(w, s)
    ensures Apply(w, s).Shaped() && |Apply(w, s).books| == |w.books|
  {
    hide EditOf, Apply;
    if IsEdit(s) { EditApplied(w, s); } else { QueueShapeStays(w, s); }
  }

  lemma QueueShapeStays(w: World, s: Step)
    requires w.Shaped() && Enabled(w, s) && !IsEdit(s)
    ensures Apply(w, s).Shaped() && |Apply(w, s).books| == |w.books|
  {
    hide EditOf, FirstFree, Remove, Batch, SetStats, Ids, IdOf;
  }

  // ----- The invariant -----

  /** What holds of one slot, its book, its bit and its membership of a queue. */
  ghost predicate BookOk(b: Book, s: Slot, bit: bool, listed: bool) {
    && s.refcnt == Base(b.phase) + Hold(b.phase) + |b.waiting| + b.leaving
    && (bit <==> s.refcnt > 0)
    && (b.phase == Queued <==> listed)
    && (b.phase.Idle? || b.phase.Submitting? || s.scsiCmd.Some?)
    && (b.phase.Submitting? ==> b.waiting == multiset{} && b.leaving == 0 && s.stat == INIT)
    && (forall x :: x in b.waiting ==> s.scsiCmd == Some(x))
    && (b.phase.AbortTaken? || b.phase.AbortPut? ==> s.scsiCmd == Some(b.phase.sc))
    && (b.gen > 0 ==> s.cmdSn == b.gen % TWO32)
    && (b.gen == 0 ==> b == Book(Idle, multiset{}, 0, 0) && s.stat == INIT)
  }

  ghost predicate SlotOk(w: World, t: nat)
    requires w.Shaped() && t < |w.books|
  {
    BookOk(w.books[t], w.h.slots[t], t in w.h.bits, w.h.Listed(t))
  }

  ghost predicate SlotsOk(w: World)
    requires w.Shaped()
  {
    && (forall t :: 0 <= t < |w.books| ==> SlotOk(w, t))
    && (forall t :: t in w.h.bits ==> t < |w.books|)
  }

  ghost predicate QueueOk(h: Host, q: seq<nat>, stat: Stat) {
    NoDup(q) && forall t :: t in q ==> t < |h.slots| && h.slots[t].stat == stat
  }

  ghost predicate QueuesOk(h: Host) {
    && QueueOk(h, h.reqQ, INIT) && QueueOk(h, h.cmpQ, REQUEST) && QueueOk(h, h.rspQ, READ_COMP)
    && h.ioRunning == |h.reqQ| + |h.cmpQ| + |h.rspQ|
  }

  ghost predicate GensOk(w: World)
    requires w.Shaped()
  {
    && w.h.cmdSn == w.allocs % TWO64
    && (forall t :: 0 <= t < |w.books| ==> w.books[t].gen <= w.allocs)
    && (forall t, u :: 0 <= t < u < |w.books| && w.books[t].gen > 0 ==> w.books[t].gen != w.books[u].gen)
    && NoDup(w.answered)
    && (forall g :: g in w.answered ==> 0 < g <= w.allocs)
    && (forall t :: 0 <= t < |w.books| && w.books[t].gen in w.answered ==>
          !w.Phase(t).Queued? && !w.Phase(t).Submitting?)
  }

  ghost predicate OwedOk(w: World, t: nat)
    requires w.Shaped() && t < |w.books|
  {
    Owes(w.Phase(t)) ==>
      && w.h.slots[t].scsiCmd.Some? && w.Sc(t) in w.accepted && w.Sc(t) !in Completed(w.h)
      && w.Sc(t) in w.home && w.home[w.Sc(t)] == t
  }

  /** An accepted request has been completed, or its slot still owes the completion. */
  ghost predicate AccountedFor(w: World, x: nat)
    requires w.Shaped()
  {
    && x in w.home && w.home[x] < |w.books|
    && (x in Completed(w.h) || (Owes(w.Phase(w.home[x])) && w.h.slots[w.home[x]].scsiCmd == Some(x)))
  }

  ghost predicate LedgerOk(w: World)
    requires w.Shaped()
  {
    && NoDup(w.accepted) && NoDup(Completed(w.h))
    && (forall x :: x in Completed(w.h) ==> x in w.accepted)
    && (forall t :: 0 <= t < |w.books| ==> OwedOk(w, t))
    && (forall x :: x in w.accepted ==> AccountedFor(w, x))
  }

  ghost predicate Inv(w: World) {
    w.Shaped() && SlotsOk(w) && QueuesOk(w.h) && GensOk(w) && LedgerOk(w)
  }

  lemma InitInv(w: World)
    requires Init(w)
    ensures Inv(w)
  {}

  /** Taking a slot off its queue leaves the other slots' membership alone. */
  lemma UnlinkIs(h: Host, t: nat)
    requires QueuesOk(h)
    ensures forall u: nat :: Unlink(h, t).Listed(u) <==> u != t && h.Listed(u)
  {
    RemoveIs(h.reqQ, t);
    RemoveIs(h.cmpQ, t);
    RemoveIs(h.rspQ, t);
  }

  lemma GetListed(h: Host, fault: bool, u: nat)
    ensures GetBatch(h, fault).Listed(u) <==> h.Listed(u)
  {
    var b, n := Batch(h), BatchSize(h);
    assert h.cmpQ == b + h.cmpQ[n..];
    ReverseElems(b);
  }

  lemma SameSlots(w: World, v: World, t: nat)
    requires w.Shaped() && SlotsOk(w) && v.Shaped() && |v.books| == |w.books|
    requires t < |w.books| && SlotOk(v, t)
    requires forall u :: 0 <= u < |w.books| && u != t ==> v.books[u] == w.books[u] && v.h.slots[u] == w.h.slots[u]
    requires forall u :: u != t ==> (u in v.h.bits <==> u in w.h.bits)
    requires forall u :: 0 <= u < |w.books| && u != t ==> (v.h.Listed(u) <==> w.h.Listed(u))
    ensures SlotsOk(v)
  {
    forall u | 0 <= u < |v.books| ensures SlotOk(v, u) {
      if u != t { assert SlotOk(w, u); }
    }
  }

  /** A change of references, told by the slot's book. */
  ghost predicate Balanced(w: World, t: nat, b: Book, op: RefOp, finished: seq<Completion>)
    requires w.Shaped() && t < |w.books|
  {
    var a, s := w.books[t], w.h.slots[t];
    && Base(b.phase) + Hold(b.phase) + |b.waiting| + b.leaving
       == Base(a.phase) + Hold(a.phase) + |a.waiting| + a.leaving + Delta(op)
    && b.gen == a.gen && !b.phase.Submitting? && (b.phase.Queued? <==> a.phase.Queued?)
    && (b.phase.Idle? || s.scsiCmd.Some?)
    && (forall x :: x in b.waiting ==> s.scsiCmd == Some(x))
    && (b.phase.AbortTaken? || b.phase.AbortPut? ==> s.scsiCmd == Some(b.phase.sc))
    && (if finished == [] then Owes(b.phase) == Owes(a.phase)
        else |finished| == 1 && Owes(a.phase) && !Owes(b.phase) && s.scsiCmd == Some(finished[0].sc))
  }

  lemma EditKeepsSlots(w: World, t: nat, b: Book, op: RefOp, finished: seq<Completion>)
    requires w.Shaped() && SlotsOk(w) && t < |w.books| && w.books[t].gen > 0 && Balanced(w, t, b, op, finished)
    requires op.GET? ==> t in w.h.bits
    ensures Edit(w, t, b, op, finished).Shaped() && SlotsOk(Edit(w, t, b, op, finished))
  {
    var v := Edit(w, t, b, op, finished);
    assert SlotOk(w, t);
    assert SlotOk(v, t);
    SameSlots(w, v, t);
  }

  lemma EditKeepsQueues(w: World, t: nat, b: Book, op: RefOp, finished: seq<Completion>)
    requires w.Shaped() && QueuesOk(w.h) && t < |w.books|
    ensures QueuesOk(Edit(w, t, b, op, finished).h)
  {}

  lemma EditKeepsGens(w: World, t: nat, b: Book, op: RefOp, finished: seq<Completion>)
    requires w.Shaped() && GensOk(w) && t < |w.books| && Balanced(w, t, b, op, finished)
    ensures Edit(w, t, b, op, finished).Shaped() && GensOk(Edit(w, t, b, op, finished))
  {}

  lemma EditKeepsLedger(w: World, t: nat, b: Book, op: RefOp, finished: seq<Completion>)
    requires w.Shaped() && LedgerOk(w) && t < |w.books| && Balanced(w, t, b, op, finished)
    ensures Edit(w, t, b, op, finished).Shaped() && LedgerOk(Edit(w, t, b, op, finished))
  {
    var v := Edit(w, t, b, op, finished);
    assert OwedOk(w, t);
    if finished == [] {
      assert Completed(v.h) == Completed(w.h);
    } else {
      var sc := finished[0].sc;
      assert Completed(v.h) == Completed(w.h) + [sc];
      NoDupAppend(Completed(w.h), sc);
    }
    forall u | 0 <= u < |v.books| ensures OwedOk(v, u) { assert OwedOk(w, u); }
    forall x | x in v.accepted ensures AccountedFor(v, x) { assert AccountedFor(w, x); }
  }

  lemma EditKeeps(w: World, t: nat, b: Book, op: RefOp, finished: seq<Completion>)
    requires Inv(w) && t < |w.books| && w.books[t].gen > 0 && Balanced(w, t, b, op, finished)
    requires op.GET? ==> t in w.h.bits
    ensures Inv(Edit(w, t, b, op, finished))
  {
    hide SlotsOk, QueuesOk, GensOk, LedgerOk, Balanced, Edit;
    EditKeepsSlots(w, t, b, op, finished);
    EditKeepsQueues(w, t, b, op, finished);
    EditKeepsGens(w, t, b, op, finished);
    EditKeepsLedger(w, t, b, op, finished);
  }

  // ----- Taking a slot off its queue -----

  /** The new book of a slot taken by a response, a sweep or an abort. */
  ghost predicate Taken(w: World, t: nat, b: Book)
    requires w.Shaped() && t < |w.books|
  {
    var a, s := w.books[t], w.h.slots[t];
    && a.phase.Queued? && Owes(b.phase) && !b.phase.Queued? && b.gen == a.gen
    && Base(b.phase) + Hold(b.phase) + |b.waiting| + b.leaving == 1 + |a.waiting| + a.leaving
    && (forall x :: x in b.waiting ==> x in a.waiting)
    && (b.phase.AbortTaken? || b.phase.AbortPut? ==> s.scsiCmd == Some(b.phase.sc))
  }

  lemma TakeKeepsSlots(w: World, t: nat, b: Book)
    requires w.Shaped() && SlotsOk(w) && QueuesOk(w.h) && t < |w.books| && Taken(w, t, b)
    ensures Take(w, t, b).Shaped() && SlotsOk(Take(w, t, b))
  {
    hide QueuesOk, Remove;
    var v := Take(w, t, b);
    assert SlotOk(w, t);
    UnlinkIs(w.h, t);
    assert SlotOk(v, t);
    SameSlots(w, v, t);
  }

  lemma TakeOffKeepsQueues(h: Host, t: nat)
    requires QueuesOk(h) && h.Listed(t)
    ensures QueuesOk(TakeOff(h, t))
  {
    RemoveIs(h.reqQ, t);
    RemoveIs(h.cmpQ, t);
    RemoveIs(h.rspQ, t);
  }

  lemma TakeKeepsGens(w: World, t: nat, b: Book)
    requires w.Shaped() && GensOk(w) && t < |w.books| && Taken(w, t, b)
    ensures Take(w, t, b).Shaped() && GensOk(Take(w, t, b))
  {}

  lemma TakeKeepsLedger(w: World, t: nat, b: Book)
    requires w.Shaped() && LedgerOk(w) && t < |w.books| && Taken(w, t, b)
    ensures Take(w, t, b).Shaped() && LedgerOk(Take(w, t, b))
  {
    var v := Take(w, t, b);
    assert Completed(v.h) == Completed(w.h);
    forall u | 0 <= u < |v.books| ensures OwedOk(v, u) { assert OwedOk(w, u); }
    forall x | x in v.accepted ensures AccountedFor(v, x) { assert AccountedFor(w, x); }
  }

  lemma TakeKeeps(w: World, t: nat, b: Book)
    requires Inv(w) && t < |w.books| && Taken(w, t, b)
    ensures Inv(Take(w, t, b))
  {
    hide SlotOk, QueuesOk, GensOk, LedgerOk, Taken;
    TakeKeepsSlots(w, t, b);
    assert SlotOk(w, t);
    QueuedIsListed(w, t, b);
    TakeOffKeepsQueues(w.h, t);
    TakeKeepsGens(w, t, b);
    TakeKeepsLedger(w, t, b);
  }

  lemma QueuedIsListed(w: World, t: nat, b: Book)
    requires w.Shaped() && t < |w.books| && SlotOk(w, t) && Taken(w, t, b)
    ensures w.h.Listed(t)
  {}

  // ----- Allocation, submission, the start loop and the batch read -----

  lemma AllocKeepsSlots(w: World)
    requires w.Shaped() && SlotsOk(w) && QueuesOk(w.h) && GensOk(w) && Alloc(w.h).1.Some?
    ensures DoAlloc(w).Shaped() && SlotsOk(DoAlloc(w)) && QueuesOk(DoAlloc(w).h)
    ensures !w.h.Listed(Alloc(w.h).1.value) && w.Phase(Alloc(w.h).1.value).Idle?
  {
    var v, t := DoAlloc(w), Alloc(w.h).1.value;
    assert SlotOk(w, t);
    SerialWraps(w.allocs);
    assert SlotOk(v, t);
    SameSlots(w, v, t);
  }

  lemma AllocKeepsGens(w: World)
    requires w.Shaped() && GensOk(w) && Alloc(w.h).1.Some?
    ensures DoAlloc(w).Shaped() && GensOk(DoAlloc(w))
  {
    SerialWraps(w.allocs);
  }

  lemma AllocKeepsLedger(w: World)
    requires w.Shaped() && LedgerOk(w) && Alloc(w.h).1.Some? && w.Phase(Alloc(w.h).1.value).Idle?
    ensures DoAlloc(w).Shaped() && LedgerOk(DoAlloc(w))
  {
    var v := DoAlloc(w);
    assert Completed(v.h) == Completed(w.h);
    forall u | 0 <= u < |v.books| ensures OwedOk(v, u) { assert OwedOk(w, u); }
    forall x | x in v.accepted ensures AccountedFor(v, x) { assert AccountedFor(w, x); }
  }

  lemma AllocKeeps(w: World)
    requires Inv(w) && Alloc(w.h).1.Some?
    ensures Inv(DoAlloc(w))
  {
    hide SlotsOk, QueuesOk, GensOk, LedgerOk, DoAlloc;
    AllocKeepsSlots(w);
    AllocKeepsGens(w);
    AllocKeepsLedger(w);
  }

  lemma QueuesAreShort(h: Host)
    requires QueuesOk(h) && |h.slots| <= MAX_NR_CMDS
    ensures |h.reqQ| <= MAX_NR_CMDS && |h.cmpQ| <= MAX_NR_CMDS && |h.rspQ| <= MAX_NR_CMDS
    ensures h.ioRunning <= 3 * MAX_NR_CMDS
  {
    Pigeonhole(h.reqQ, |h.slots|);
    Pigeonhole(h.cmpQ, |h.slots|);
    Pigeonhole(h.rspQ, |h.slots|);
  }

  lemma SubmitKeepsQueues(w: World, t: nat, sc: nat)
    requires w.Shaped() && QueuesOk(w.h) && t < |w.books| && w.h.slots[t].stat == INIT && !w.h.Listed(t)
    ensures QueuesOk(DoSubmit(w, t, sc).h)
  {
    QueuesAreShort(w.h);
    NoDupAppend(w.h.reqQ, t);
  }

  lemma SubmitKeeps(w: World, t: nat, sc: nat)
    requires Inv(w) && t < |w.books| && w.Phase(t).Submitting? && sc !in w.accepted
    ensures Inv(DoSubmit(w, t, sc))
  {
    hide QueuesOk;
    var v := DoSubmit(w, t, sc);
    assert SlotOk(w, t);
    assert SlotOk(v, t);
    SameSlots(w, v, t);
    SubmitKeepsQueues(w, t, sc);
    NoDupAppend(w.accepted, sc);
    assert Completed(v.h) == Completed(w.h);
    forall u | 0 <= u < |v.books| ensures OwedOk(v, u) { assert OwedOk(w, u); }
    forall x | x in v.accepted ensures AccountedFor(v, x) { if x != sc { assert AccountedFor(w, x); } }
  }

  lemma HeadInRange(h: Host, q: QueueName)
    requires QueuesOk(h) && QueueOf(h, q) != []
    ensures QueueOf(h, q)[0] < |h.slots| && h.Listed(QueueOf(h, q)[0])
  {
    assert QueueOf(h, q)[0] in QueueOf(h, q);
  }

  lemma StartKeepsQueues(h: Host)
    requires QueuesOk(h) && h.reqQ != []
    ensures h.reqQ[0] < |h.slots| && QueuesOk(StartOne(h))
  {
    HeadInRange(h, REQQ);
    var c, rest := h.reqQ[0], h.reqQ[1..];
    assert h.reqQ == [c] + rest;
    NoDupCons(c, rest);
    NoDupAppend(h.cmpQ, c);
    var v := StartOne(h);
    assert forall t :: t in v.reqQ ==> t in h.reqQ && t != c;
    assert forall t :: t in v.cmpQ ==> t in h.cmpQ || t == c;
  }

  lemma StartListed(h: Host, u: nat)
    requires h.reqQ != [] && h.reqQ[0] < |h.slots|
    ensures StartOne(h).Listed(u) <==> h.Listed(u)
  {
    assert h.reqQ == [h.reqQ[0]] + h.reqQ[1..];
  }

  lemma StatsOnly(w: World, h: Host)
    requires Inv(w) && QueuesOk(h) && |h.slots| == |w.h.slots|
    requires h.bits == w.h.bits && h.done == w.h.done && h.cmdSn == w.h.cmdSn
    requires forall t :: 0 <= t < |h.slots| ==> h.slots[t] == w.h.slots[t].(stat := h.slots[t].stat)
    requires forall t :: 0 <= t < |h.slots| && !w.h.Listed(t) ==> h.slots[t].stat == w.h.slots[t].stat
    requires forall t :: 0 <= t < |h.slots| ==> (h.Listed(t) <==> w.h.Listed(t))
    ensures Inv(w.(h := h))
  {
    hide QueuesOk;
    var v := w.(h := h);
    forall t | 0 <= t < |v.books| ensures SlotOk(v, t) { assert SlotOk(w, t); }
    assert Completed(v.h) == Completed(w.h);
    forall u | 0 <= u < |v.books| ensures OwedOk(v, u) { assert OwedOk(w, u); }
    forall x | x in v.accepted ensures AccountedFor(v, x) { assert AccountedFor(w, x); }
  }

  lemma StartKeeps(w: World)
    requires Inv(w) && w.h.reqQ != []
    ensures w.h.reqQ[0] < |w.h.slots| && Inv(w.(h := StartOne(w.h)))
  {
    hide QueuesOk, SlotsOk, GensOk, LedgerOk;
    HeadInRange(w.h, REQQ);
    StartKeepsQueues(w.h);
    forall u { StartListed(w.h, u); }
    StatsOnly(w, StartOne(w.h));
  }

  /** Two queue facts from the split of `cmpQ` into the batch and the rest. */
  lemma BatchSplit(h: Host) returns (b: seq<nat>, rest: seq<nat>)
    requires QueuesOk(h)
    ensures b == Batch(h) && rest == h.cmpQ[BatchSize(h)..] && |b| + |rest| == |h.cmpQ|
    ensures QueueOk(h, b, REQUEST) && QueueOk(h, rest, REQUEST) && forall t :: t in b ==> t !in rest
  {
    b, rest := Batch(h), h.cmpQ[BatchSize(h)..];
    assert h.cmpQ == b + rest;
    NoDupParts(b, rest);
    hide NoDup;
    assert forall t :: t in b || t in rest ==> t in h.cmpQ;
  }

  lemma QueueOkJoin(h: Host, a: seq<nat>, b: seq<nat>, stat: Stat)
    requires QueueOk(h, a, stat) && QueueOk(h, b, stat) && forall t :: t in a ==> t !in b
    ensures QueueOk(h, a + b, stat)
  {
    NoDupParts(a, b);
  }

  lemma GetKeepsQueues(h: Host, fault: bool)
    requires QueuesOk(h)
    ensures QueuesOk(GetBatch(h, fault))
  {
    hide NoDup, Reverse;
    var b, rest := BatchSplit(h);
    var v := GetBatch(h, fault);
    assert QueueOk(v, rest, REQUEST) && QueueOk(v, h.reqQ, INIT) && QueueOk(v, h.rspQ, READ_COMP);
    if fault {
      NoDupReverse(b);
      ReverseElems(b);
      QueueOkJoin(v, Reverse(b), rest, REQUEST);
    } else {
      QueueOkJoin(v, h.rspQ, b, READ_COMP);
    }
  }

  lemma GetKeeps(w: World, fault: bool)
    requires Inv(w)
    ensures Inv(DoGet(w, fault))
  {
    hide QueuesOk, SlotsOk, GensOk, LedgerOk;
    GetKeepsQueues(w.h, fault);
    forall u { GetListed(w.h, fault, u); }
    BatchListed(w.h);
    StatsOnly(w, GetBatch(w.h, fault));
    DeliveredIsFree(w.(h := GetBatch(w.h, fault)), DoGet(w, fault));
  }

  lemma BatchListed(h: Host)
    ensures forall t :: t in Batch(h) ==> h.Listed(t)
  {}

  /** What the target has read plays no part in the invariant. */
  lemma DeliveredIsFree(w: World, v: World)
    requires Inv(w) && v == w.(delivered := v.delivered)
    ensures Inv(v)
  {
    forall t | 0 <= t < |v.books| ensures SlotOk(v, t) { assert SlotOk(w, t); }
    forall u | 0 <= u < |v.books| ensures OwedOk(v, u) { assert OwedOk(w, u); }
    forall x | x in v.accepted ensures AccountedFor(v, x) { assert AccountedFor(w, x); }
  }

  lemma RespondKeeps(w: World, t: nat, outcome: Outcome)
    requires Inv(w) && t < |w.books| && w.h.Listed(t)
    ensures Inv(DoRespond(w, t, outcome))
  {
    var b := w.books[t].(phase := RespTaken(outcome));
    assert SlotOk(w, t);
    TakeKeeps(w, t, b);
    Answered(Take(w, t, b), DoRespond(w, t, outcome), t);
  }

  /** Marking a slot that is off the queues, and recording the answer, keeps the invariant. */
  lemma Answered(w: World, v: World, t: nat)
    requires Inv(w) && t < |w.books| && w.Phase(t).RespTaken? && w.books[t].gen > 0
    requires w.books[t].gen !in w.answered
    requires v == w.(h := SetStat(w.h, t, RESP), answered := w.answered + [w.books[t].gen])
    ensures Inv(v)
  {
    hide NoDup;
    assert SlotOk(w, t);
    forall u | 0 <= u < |v.books| ensures SlotOk(v, u) { assert SlotOk(w, u); }
    hide SlotOk;
    NoDupAppend(w.answered, w.books[t].gen);
    assert Completed(v.h) == Completed(w.h);
    forall u | 0 <= u < |v.books| ensures OwedOk(v, u) { assert OwedOk(w, u); }
    forall x | x in v.accepted ensures AccountedFor(v, x) { assert AccountedFor(w, x); }
  }

  lemma LateAbortBalanced(w: World, t: nat, sc: nat)
    requires w.Shaped() && t < |w.books| && SlotOk(w, t) && sc in w.books[t].waiting
    ensures var b := w.books[t];
      Balanced(w, t, b.(waiting := b.waiting - multiset{sc}, leaving := b.leaving + 1), KEEP, [])
  {}

  ghost predicate EditFine(w: World, s: Step)
    requires w.Shaped() && Enabled(w, s) && IsEdit(s)
  {
    var (b, op, finished) := EditOf(w, s);
    Balanced(w, s.t, b, op, finished) && w.books[s.t].gen > 0 && (op.GET? ==> s.t in w.h.bits)
  }

  lemma HoldersFine(w: World, s: Step)
    requires w.Shaped() && Enabled(w, s) && (s.EhEnter? || s.EhGiveUp?) && SlotOk(w, s.t)
    ensures EditFine(w, s)
  {
    hide Host.Listed;
    if s.EhGiveUp? {
      LateAbortBalanced(w, s.t, s.sc);
      hide Balanced;
    } else {
      EnterBalanced(w, s.t, s.sc);
      hide Balanced;
    }
  }

  lemma EnterBalanced(w: World, t: nat, sc: nat)
    requires w.Shaped() && t < |w.books| && SlotOk(w, t) && Owes(w.Phase(t)) && w.h.slots[t].scsiCmd == Some(sc)
    ensures var b := w.books[t]; Balanced(w, t, b.(waiting := b.waiting + multiset{sc}), GET, [])
  {
    hide Host.Listed;
    assert |w.books[t].waiting + multiset{sc}| == |w.books[t].waiting| + 1;
  }

  lemma SweepsFine(w: World, s: Step)
    requires w.Shaped() && Enabled(w, s) && (s.SweepGet? || s.SweepFinish? || s.SweepDrop? || s.Leave?)
    requires SlotOk(w, s.t)
    ensures EditFine(w, s)
  {
    hide Host.Listed;
  }

  lemma FinishersFine(w: World, s: Step)
    requires w.Shaped() && Enabled(w, s) && (s.RespFinish? || s.RespPut? || s.AbortDrop? || s.AbortFinish?)
    requires SlotOk(w, s.t)
    ensures EditFine(w, s)
  {
    hide Host.Listed;
  }

  lemma EditOfBalanced(w: World, s: Step)
    requires w.Shaped() && Enabled(w, s) && IsEdit(s) && SlotOk(w, s.t)
    ensures EditFine(w, s)
  {
    hide EditFine, SlotOk;
    if s.EhEnter? || s.EhGiveUp? { HoldersFine(w, s); }
    else if s.SweepGet? || s.SweepFinish? || s.SweepDrop? || s.Leave? { SweepsFine(w, s); }
    else { FinishersFine(w, s); }
  }

  lemma EditStepKeeps(w: World, s: Step)
    requires Inv(w) && Enabled(w, s) && IsEdit(s)
    ensures Inv(Apply(w, s))
  {
    hide QueuesOk, GensOk, LedgerOk, SlotOk, Edit, EditOf, Balanced, Apply;
    assert SlotOk(w, s.t);
    EditApplied(w, s);
    EditOfBalanced(w, s);
    var (b, op, finished) := EditOf(w, s);
    EditKeeps(w, s.t, b, op, finished);
  }

  lemma SweepTakeKeeps(w: World, q: QueueName)
    requires Inv(w) && QueueOf(w.h, q) != []
    ensures var t := QueueOf(w.h, q)[0]; t < |w.books| && Inv(Take(w, t, w.books[t].(phase := SweepTaken)))
  {
    HeadInRange(w.h, q);
    hide QueuesOk, GensOk, LedgerOk, Take;
    var t := QueueOf(w.h, q)[0];
    assert SlotOk(w, t);
    TakeKeeps(w, t, w.books[t].(phase := SweepTaken));
  }

  lemma DecideKeeps(w: World, t: nat, sc: nat)
    requires Inv(w) && t < |w.books| && sc in w.books[t].waiting
    ensures var b := w.books[t].(waiting := w.books[t].waiting - multiset{sc});
      Inv(if w.h.Listed(t) then Take(w, t, b.(phase := AbortTaken(sc)))
          else Edit(w, t, b.(leaving := b.leaving + 1), KEEP, []))
  {
    hide QueuesOk, GensOk, LedgerOk, Take, Edit, Balanced;
    assert SlotOk(w, t);
    var b := w.books[t].(waiting := w.books[t].waiting - multiset{sc});
    if w.h.Listed(t) {
      TakeKeeps(w, t, b.(phase := AbortTaken(sc)));
    } else {
      LateAbortBalanced(w, t, sc);
      EditKeeps(w, t, b.(leaving := b.leaving + 1), KEEP, []);
    }
  }

  lemma QueueStepKeeps(w: World, s: Step)
    requires Inv(w) && Enabled(w, s) && !IsEdit(s)
    ensures Inv(Apply(w, s))
  {
    hide SlotsOk, QueuesOk, GensOk, LedgerOk;
    hide EditOf, Edit, Take, DoAlloc, DoSubmit, DoGet, DoRespond, StartOne, Alloc, Host.Listed;
    match s
    case AllocStep => AllocKeeps(w);
    case Submit(t, sc) => SubmitKeeps(w, t, sc);
    case StartStep => StartKeeps(w);
    case GetStep(fault) => GetKeeps(w, fault);
    case Respond(tag, sn, outcome) => if Addressed(w.h, tag, sn) { RespondKeeps(w, tag, outcome); }
    case TakeStep(q) => SweepTakeKeeps(w, q);
    case AbortDecide(t, sc) => DecideKeeps(w, t, sc);
    case _ =>
  }

  /** The invariant survives every step. */
  lemma StepKeeps(w: World, s: Step)
    requires Inv(w) && Enabled(w, s)
    ensures Inv(Apply(w, s))
  {
    hide SlotsOk, QueuesOk, GensOk, LedgerOk, Apply, Enabled;
    if IsEdit(s) { EditStepKeeps(w, s); } else { QueueStepKeeps(w, s); }
  }

  /** Every state of every run satisfies the invariant. */
  lemma {:induction false} RunKeeps(w: World, steps: seq<Step>, last: World)
    requires Inv(w) && Run(w, steps, last)
    ensures Inv(last)
    decreases |steps|
  {
    hide Inv, Apply, Enabled;
    if steps != [] {
      StepKeeps(w, steps[0]);
      RunKeeps(Apply(w, steps[0]), steps[1..], last);
    }
  }
}
